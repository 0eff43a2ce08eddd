/** internal/store/sqlite/sqlite.go: the queue's tables, updated in place. Each method is one guarded UPDATE or one
    BEGIN IMMEDIATE transaction that reads the clock once; `now` is that reading. */
module Sqlite {
  import opened Wrappers
  import opened Ordering
  import opened Model
  import opened Queries

  /** ORDER BY priority DESC, created_at ASC, id ASC */
  function ClaimOrder(jobs: map<string, Job>): (string, string) -> bool
  {
    (a, b) => ClaimsBefore(jobs, a, b)
  }

  predicate ByTimeThenId(x: Option<Time>, a: string, y: Option<Time>, b: string)
  {
    if x == y then TextLe(a, b) else x.None? || (y.Some? && x.value < y.value)
  }

  /** ORDER BY lease_until ASC, id ASC */
  function LeaseOrder(jobs: map<string, Job>): (string, string) -> bool
  {
    (a, b) => ByTimeThenId(Row(Db(jobs, map[], map[], map[]), a).leaseUntil, a,
                           Row(Db(jobs, map[], map[], map[]), b).leaseUntil, b)
  }

  /** ORDER BY started_at ASC, id ASC */
  function StartOrder(jobs: map<string, Job>): (string, string) -> bool
  {
    (a, b) => ByTimeThenId(Row(Db(jobs, map[], map[], map[]), a).startedAt, a,
                           Row(Db(jobs, map[], map[], map[]), b).startedAt, b)
  }

  lemma ClaimOrderOrders(jobs: map<string, Job>)
    ensures Orders(ClaimOrder(jobs))
  {
    TextLeOrders();
  }

  lemma TimeOrdersOrder(jobs: map<string, Job>)
    ensures Orders(LeaseOrder(jobs)) && Orders(StartOrder(jobs))
  {
    TextLeOrders();
  }

  lemma ReleaseOneMore(db: Db, ids: set<string>, id: string, now: Time)
    requires id in db.jobs && id !in ids
    ensures ReleaseRows(db, ids + {id}, now).jobs == ReleaseRows(db, ids, now).jobs[id := Released(db.jobs[id], now)]
  {
  }

  /** The first claimable row of the ordered scan is the least one. */
  lemma ScanStopsRight(db: Db, filter: ClaimFilter, rows: seq<string>, i: nat, now: Time)
    requires forall id :: id in rows <==> Eligible(db, id, now)
    requires SortedBy(ClaimOrder(db.jobs), rows)
    requires i < |rows| && Claimable(db, filter, rows[i], now)
    requires forall k :: 0 <= k < i ==> !Claimable(db, filter, rows[k], now)
    ensures IsNextClaim(db, filter, rows[i], now)
  {
    forall other | Claimable(db, filter, other, now) ensures ClaimsBefore(db.jobs, rows[i], other) {
      assert Eligible(db, other, now);
      var k :| 0 <= k < |rows| && rows[k] == other;
      ClaimOrderOrders(db.jobs);
      assert ClaimOrder(db.jobs)(rows[i], other);
    }
  }

  class Store {
    var jobs: map<string, Job>
    var heartbeats: map<string, Heartbeat>
    var attempts: map<AttemptKey, nat>
    var issues: map<string, IssueState>

    function Contents(): (db: Db)
      reads this
    {
      Db(jobs, heartbeats, attempts, issues)
    }

    constructor ()
      ensures Contents() == EMPTY_DB
    {
      jobs, heartbeats, attempts, issues := map[], map[], map[], map[];
    }

    /** Commits of other connections to the same database. */
    method Absorb(db: Db)
      modifies this
      ensures Contents() == db
    {
      jobs, heartbeats, attempts, issues := db.jobs, db.heartbeats, db.attempts, db.issues;
    }

    /** SELECT id FROM jobs WHERE status = 'pending' AND available_at <= ? ORDER BY ... */
    method ListEligibleJobIDs(now: Time) returns (ids: seq<string>)
      ensures forall id :: id in ids <==> Eligible(Contents(), id, now)
      ensures SortedBy(ClaimOrder(jobs), ids)
      ensures forall i, j :: 0 <= i < j < |ids| ==> ids[i] != ids[j]
      ensures forall id :: id in ids <==> id in jobs && jobs[id].status.Pending? && jobs[id].task.availableAt <= now
      ensures forall i, j :: 0 <= i < j < |ids| ==>
                var x, y := jobs[ids[i]].task, jobs[ids[j]].task;
                && y.priority <= x.priority
                && (y.priority == x.priority ==> x.createdAt <= y.createdAt)
                && (y.priority == x.priority && y.createdAt == x.createdAt ==> TextLe(ids[i], ids[j]))
    {
      ClaimOrderOrders(jobs);
      ids := OrderBy(ClaimOrder(jobs), set id | id in jobs && Eligible(Contents(), id, now));
    }

    /** The scan takes the least claimable row, and takes none exactly when capacity is full or no row is claimable. */
    method ClaimNextJob(who: Identity, filter: ClaimFilter, maxGlobal: int, lease: Time, now: Time)
      returns (outcome: Outcome, claimed: Option<string>)
      modifies this
      ensures outcome == if maxGlobal <= 0 || ValidIdentity(who) then Done else Invalid
      ensures claimed.Some? ==>
                && |RunningJobs(old(Contents()))| < maxGlobal && ValidIdentity(who)
                && IsNextClaim(old(Contents()), filter, claimed.value, now)
                && Contents() == ClaimRow(old(Contents()), claimed.value, who, now, lease)
      ensures claimed.None? ==> Contents() == old(Contents())
      ensures claimed.None? && outcome == Done ==>
                |RunningJobs(old(Contents()))| >= maxGlobal
                || forall id :: !Claimable(old(Contents()), filter, id, now)
      ensures claimed.Some? ==>
                && claimed.value in old(jobs) && old(jobs)[claimed.value].status.Pending?
                && var x := old(jobs)[claimed.value].task;
                   && x.availableAt <= now && (filter.kinds == [] || x.kind in filter.kinds)
                   && (filter.frontier.None? || claimed.value in filter.frontier.value)
                   && (x.routeName in filter.limits && filter.limits[x.routeName] > 0 ==>
                         |set j | j in old(jobs) && old(jobs)[j].status.Running? && old(jobs)[j].task.routeName == x.routeName|
                         < filter.limits[x.routeName])
                   && forall other :: Claimable(old(Contents()), filter, other, now) ==>
                        var y := old(jobs)[other].task;
                        && y.priority <= x.priority
                        && (y.priority == x.priority ==> x.createdAt <= y.createdAt)
                        && (y.priority == x.priority && y.createdAt == x.createdAt ==> TextLe(claimed.value, other))
      ensures claimed.Some? ==>
                && jobs == old(jobs)[claimed.value := jobs[claimed.value]]
                && var j, k := old(jobs)[claimed.value], jobs[claimed.value];
                   && k == j.(status := Running, lockedBy := Some(who.runnerId), owner := Some(who.instanceId),
                              leaseUntil := Some(now + lease), startedAt := k.startedAt, updatedAt := now, lastError := None,
                              launch := Launch(None, None, None, Some(Preparing), None, None, None, None, None))
                   && k.startedAt == (if j.startedAt.None? then Some(now) else j.startedAt)
      ensures claimed.None? && outcome == Done ==>
                || |set j | j in old(jobs) && old(jobs)[j].status.Running?| >= maxGlobal
                || forall id :: id in old(jobs) && old(jobs)[id].status.Pending? && old(jobs)[id].task.availableAt <= now
                                && (filter.kinds == [] || old(jobs)[id].task.kind in filter.kinds)
                                && (filter.frontier.None? || id in filter.frontier.value) ==>
                     var route := old(jobs)[id].task.routeName;
                     && route in filter.limits
                     && 0 < filter.limits[route]
                          <= |set j | j in old(jobs) && old(jobs)[j].status.Running? && old(jobs)[j].task.routeName == route|
    {
      if maxGlobal <= 0 {
        return Done, None;
      }
      if !ValidIdentity(who) {
        return Invalid, None;
      }
      var db := Contents();
      if |RunningJobs(db)| >= maxGlobal {
        return Done, None;
      }
      var rows := ListEligibleJobIDs(now);
      for i := 0 to |rows|
        invariant Contents() == db
        invariant forall k :: 0 <= k < i ==> !Claimable(db, filter, rows[k], now)
      {
        var id := rows[i];
        assert Eligible(db, id, now) by {
          assert id in rows;
        }
        if filter.frontier.Some? && id !in filter.frontier.value {
          continue;
        }
        if filter.kinds != [] && jobs[id].task.kind !in filter.kinds {
          continue;
        }
        var route := jobs[id].task.routeName;
        var limit := if route in filter.limits then filter.limits[route] else 0;
        if limit > 0 {
          var routeRunning := |RunningOn(db, route)|;
          if routeRunning >= limit {
            continue;
          }
        }
        ScanStopsRight(db, filter, rows, i, now);
        jobs := jobs[id := Claimed(jobs[id], who, now, lease)];
        return Done, Some(id);
      }
      return Done, None;
    }

    method ClaimNextJobInFrontier(who: Identity, filter: ClaimFilter, maxGlobal: int, lease: Time, frontier: set<string>, now: Time)
      returns (outcome: Outcome, claimed: Option<string>)
      modifies this
      ensures outcome == if frontier == {} || maxGlobal <= 0 || ValidIdentity(who) then Done else Invalid
      ensures claimed.Some? ==>
                && |RunningJobs(old(Contents()))| < maxGlobal && ValidIdentity(who)
                && claimed.value in frontier
                && IsNextClaim(old(Contents()), filter.(frontier := Some(frontier)), claimed.value, now)
                && Contents() == ClaimRow(old(Contents()), claimed.value, who, now, lease)
      ensures claimed.Some? ==>
                && claimed.value in old(jobs) && old(jobs)[claimed.value].status.Pending?
                && var x := old(jobs)[claimed.value].task;
                   forall other :: Claimable(old(Contents()), filter.(frontier := Some(frontier)), other, now) ==>
                     var y := old(jobs)[other].task;
                     && y.priority <= x.priority
                     && (y.priority == x.priority ==> x.createdAt <= y.createdAt)
                     && (y.priority == x.priority && y.createdAt == x.createdAt ==> TextLe(claimed.value, other))
      ensures claimed.None? ==> Contents() == old(Contents())
      ensures claimed.None? && outcome == Done ==>
                |RunningJobs(old(Contents()))| >= maxGlobal
                || forall id :: id in frontier ==> !Claimable(old(Contents()), filter.(frontier := Some(frontier)), id, now)
    {
      if frontier == {} {
        return Done, None;
      }
      outcome, claimed := ClaimNextJob(who, filter.(frontier := Some(frontier)), maxGlobal, lease, now);
    }

    /** The SELECT of ReleaseExpiredLeases and the loop that skips the caller's active jobs. */
    method SelectExpired(now: Time, cutoff: Time, current: string, active: set<string>) returns (ids: set<string>)
      ensures ids == ReleaseSet(Contents(), now, cutoff, current, active)
    {
      var rest := set id | id in jobs && Releasable(Contents(), jobs[id], now, cutoff);
      ids := {};
      ghost var expired := rest;
      while rest != {}
        invariant rest <= expired
        invariant ids == set id | id in expired - rest && !Excluded(id, jobs[id], current, active)
        decreases rest
      {
        var id :| id in rest;
        if !(id in active && current != "" && Text(jobs[id].owner) == current) {
          ids := ids + {id};
        }
        rest := rest - {id};
      }
    }

    /** The UPDATE loop of ReleaseExpiredLeases. */
    method ReleaseEach(ids: set<string>, now: Time) returns (updated: nat)
      requires ids <= jobs.Keys
      modifies this`jobs
      ensures jobs == ReleaseRows(old(Contents()), ids, now).jobs
      ensures updated == |ids|
    {
      ghost var db := Contents();
      var todo := ids;
      ghost var done: set<string> := {};
      updated := 0;
      while todo != {}
        invariant done !! todo && done + todo == ids
        invariant jobs == ReleaseRows(db, done, now).jobs
        invariant updated == |done|
        decreases todo
      {
        var id :| id in todo;
        ReleaseOneMore(db, done, id, now);
        jobs := jobs[id := Released(jobs[id], now)];
        updated := updated + 1;
        todo := todo - {id};
        done := done + {id};
      }
      assert done == ids;
    }

    /** Expired rows of stale owners that are safe to relaunch go back to pending; the caller's active jobs are kept. */
    method ReleaseExpiredLeases(now: Time, cutoff: Time, current: string, active: seq<string>) returns (updated: nat)
      modifies this`jobs
      ensures Contents() == ReleaseExpired(old(Contents()), now, cutoff, current, StringSet(active))
      ensures updated == |ReleaseSet(old(Contents()), now, cutoff, current, StringSet(active))|
      ensures jobs.Keys == old(jobs).Keys
      ensures forall id :: id in jobs ==>
                var j, k := old(jobs)[id], jobs[id];
                if && j.status.Running? && j.leaseUntil.Some? && j.leaseUntil.value < now
                   && OwnerStale(heartbeats, j.owner, cutoff)
                   && (!Present(j.launch.kind) || !Present(j.launch.token) || j.launch.state == Some(Preparing))
                   && !(id in active && current != "" && j.owner == Some(current))
                then && k.status.Pending? && k.lockedBy.None? && k.owner.None? && k.leaseUntil.None? && k.pid.None?
                     && k.launch == NO_LAUNCH && k.updatedAt == now && k.lastError == Some("lease expired")
                     && k.task == j.task && k.attempt == j.attempt && k.files == j.files
                     && k.startedAt == j.startedAt && k.finishedAt == j.finishedAt
                else k == j
    {
      var ids := SelectExpired(now, cutoff, current, StringSet(active));
      updated := ReleaseEach(ids, now);
    }

    /** execOwned: apply the update when the row matched, else classify the refusal */
    method ExecOwned(id: string, runner: string, now: Time, guard: bool, job: Job) returns (outcome: Outcome)
      modifies this`jobs
      ensures (Contents(), outcome) == UpdateHeld(old(Contents()), id, runner, now, guard, job)
      ensures outcome == Done <==>
                && id in old(jobs) && old(jobs)[id].status.Running? && old(jobs)[id].owner == Some(runner)
                && (old(jobs)[id].leaseUntil.None? || now <= old(jobs)[id].leaseUntil.value) && guard
      ensures outcome == LostLease ==>
                && id in old(jobs) && old(jobs)[id].status.Running? && Text(old(jobs)[id].owner) == runner
                && old(jobs)[id].leaseUntil.Some? && old(jobs)[id].leaseUntil.value < now
    {
      if id in jobs && Holds(jobs[id], runner, now) && guard {
        jobs := jobs[id := job];
        return Done;
      }
      outcome := OwnershipError(Contents(), id, runner, now);
    }

    method RenewJobLease(id: string, runner: string, lease: Time, now: Time) returns (outcome: Outcome)
      modifies this`jobs
      ensures (Contents(), outcome) == Renew(old(Contents()), id, runner, lease, now)
      ensures outcome == Done ==>
                lease > 0 && id in old(jobs)
                && jobs == old(jobs)[id := old(jobs)[id].(leaseUntil := Some(now + lease), updatedAt := now)]
    {
      if lease == 0 {
        return Invalid;
      }
      outcome := ExecOwned(id, runner, now, true, Row(Contents(), id).(leaseUntil := Some(now + lease), updatedAt := now));
    }

    method PersistLaunchSpecOwned(id: string, runner: string, r: LaunchSpecRecord, now: Time) returns (outcome: Outcome)
      modifies this`jobs
      ensures (Contents(), outcome) == PersistSpec(old(Contents()), id, runner, r, now)
      ensures outcome == Done ==>
                && id in old(jobs) && old(jobs)[id].launch.state == Some(Preparing)
                && jobs == old(jobs)[id := jobs[id]]
                && jobs[id] == old(jobs)[id].(launch := jobs[id].launch, files := r.files, updatedAt := now)
                && jobs[id].launch
                   == Launch(Some(r.supervisorKind), old(jobs)[id].launch.supervisorId, Some(r.token), Some(Preparing),
                             old(jobs)[id].launch.pgid, old(jobs)[id].launch.processStartedAt,
                             Some(r.metadataPath), Some(r.specPath), Some(r.timeoutAt))
    {
      if !ValidSpecRecord(r) {
        return Invalid;
      }
      var job := Row(Contents(), id);
      outcome := ExecOwned(id, runner, now, job.launch.state == Some(Preparing), SpecPersisted(job, r, now));
    }

    method MarkJobLaunchingOwned(id: string, runner: string, token: string, now: Time) returns (outcome: Outcome)
      modifies this`jobs
      ensures (Contents(), outcome) == MarkLaunching(old(Contents()), id, runner, token, now)
      ensures outcome == Done ==>
                && id in old(jobs) && old(jobs)[id].launch.state == Some(Preparing) && old(jobs)[id].launch.token == Some(token)
                && jobs == old(jobs)[id := old(jobs)[id].(launch := old(jobs)[id].launch.(state := Some(Launching)), updatedAt := now)]
    {
      var job := Row(Contents(), id);
      outcome := ExecOwned(id, runner, now, job.launch.token == Some(token) && job.launch.state == Some(Preparing),
                           job.(launch := job.launch.(state := Some(Launching)), updatedAt := now));
    }

    method PersistLaunchRecordOwned(id: string, runner: string, r: LaunchRecord, now: Time) returns (outcome: Outcome)
      modifies this`jobs
      ensures (Contents(), outcome) == PersistRecord(old(Contents()), id, runner, r, now)
      ensures outcome == Done ==>
                && id in old(jobs) && old(jobs)[id].launch.state == Some(Launching) && old(jobs)[id].launch.token == Some(r.token)
                && jobs == old(jobs)[id := jobs[id]]
                && RecordColumns(old(jobs)[id], jobs[id], r, now)
    {
      if !ValidRecord(r) {
        return Invalid;
      }
      var job := Row(Contents(), id);
      outcome := ExecOwned(id, runner, now, job.launch.token == Some(r.token) && job.launch.state == Some(Launching),
                           RecordPersisted(job, r, now));
    }

    /** reverseAttemptTx */
    method ReverseAttempt(id: string)
      requires id in jobs
      modifies this`jobs, this`attempts
      ensures Contents() == Reverse(old(Contents()), id)
    {
      var job := jobs[id];
      if job.attempt.count <= 0 || job.attempt.scope.None? || Blank(job.attempt.scope.value) {
        return;
      }
      var key := Provenance(job);
      if key !in attempts || attempts[key] == 0 {
        return;
      }
      attempts := attempts[key := attempts[key] - 1];
      jobs := jobs[id := job.(attempt := job.attempt.(count := job.attempt.count - 1))];
    }

    method FinalizeJobOwned(id: string, runner: string, f: JobFinalize, now: Time) returns (outcome: Outcome)
      modifies this`jobs, this`attempts
      ensures (Contents(), outcome) == Finalize(old(Contents()), id, runner, f, now)
      ensures outcome == Done ==>
                && id in old(jobs) && jobs == old(jobs)[id := jobs[id]]
                && FinalColumns(old(jobs)[id], jobs[id], f, now)
                && Reversing(old(jobs)[id], jobs[id], old(attempts), attempts, f.workStarted == Some(false))
    {
      outcome := AssertOwned(Contents(), id, runner, now);
      if outcome != Done {
        return;
      }
      var jobsBefore, attemptsBefore := jobs, attempts;
      if f.workStarted == Some(false) {
        ReverseAttempt(id);
      }
      if !Holds(jobs[id], runner, now) {
        jobs, attempts := jobsBefore, attemptsBefore;  // ROLLBACK
        return NotOwner;
      }
      jobs := jobs[id := Finalized(jobs[id], f, now)];
    }

    method IncrementAttemptsForJob(id: string, runner: string, key: AttemptKey, now: Time)
      returns (outcome: Outcome, count: nat)
      modifies this`jobs, this`attempts
      ensures (Contents(), outcome, count) == Increment(old(Contents()), id, runner, key, now)
      ensures outcome == Done ==>
                && id in old(jobs) && count > 0
                && var k := key.(scope := if Blank(key.scope) then "legacy" else key.scope);
                   && count == (if k in old(attempts) then old(attempts)[k] else 0) + 1
                   && attempts == old(attempts)[k := count]
                   && jobs == old(jobs)[id := old(jobs)[id].(attempt := Attempt(count, key.generation, Some(k.scope)), updatedAt := now)]
      ensures outcome != Done ==> Contents() == old(Contents()) && count == 0
    {
      outcome, count := AssertOwned(Contents(), id, runner, now), 0;
      if outcome != Done {
        return;
      }
      var k := key.(scope := ScopeOrLegacy(key.scope));
      var attemptsBefore := attempts;
      if k !in attempts {
        attempts := attempts[k := 0];
      }
      attempts := attempts[k := attempts[k] + 1];
      if !Holds(jobs[id], runner, now) {
        attempts := attemptsBefore;  // ROLLBACK
        return NotOwner, 0;
      }
      count := attempts[k];
      jobs := jobs[id := Counted(jobs[id], count, k.generation, k.scope, now)];
      assert attempts == attemptsBefore[k := count];
    }

    /** UpsertIssue; of the two rows it writes, the snapshot and the issue's state, only the state is kept here */
    method UpsertIssue(issueKey: string)
      modifies this`issues
      ensures Contents() == Queries.UpsertIssue(old(Contents()), issueKey)
      ensures issues.Keys == old(issues).Keys + {issueKey}
      ensures forall key :: key in issues ==> issues[key] == if key in old(issues) then old(issues)[key] else IssueState(0, 0)
    {
      if issueKey !in issues {
        issues := issues[issueKey := IssueState(0, 0)];
      }
    }

    method IncrementTransitionsForJob(id: string, runner: string, issueKey: string, now: Time)
      returns (outcome: Outcome, count: nat)
      modifies this`issues
      ensures (Contents(), outcome, count) == IncrementTransitions(old(Contents()), id, runner, issueKey, now)
      ensures outcome == Done ==>
                && id in old(jobs) && old(jobs)[id].status.Running? && Text(old(jobs)[id].owner) == runner
                && (old(jobs)[id].leaseUntil.None? || now <= old(jobs)[id].leaseUntil.value)
                && issueKey in old(issues) && count == old(issues)[issueKey].transitions + 1
                && issues == old(issues)[issueKey := old(issues)[issueKey].(transitions := count)]
      ensures outcome != Done ==> Contents() == old(Contents())
    {
      outcome, count := AssertOwned(Contents(), id, runner, now), 0;
      if outcome != Done {
        return;
      }
      if issueKey !in issues {
        return Invalid, 0;
      }
      var st := issues[issueKey];
      issues := issues[issueKey := st.(transitions := st.transitions + 1)];
      count := issues[issueKey].transitions;
    }

    method ListOwnedRunningJobs(runner: string) returns (ids: seq<string>)
      ensures forall id :: id in ids <==> id in jobs && jobs[id].status.Running? && jobs[id].owner == Some(runner)
      ensures SortedBy(StartOrder(jobs), ids)
      ensures forall i, j :: 0 <= i < j < |ids| ==> ids[i] != ids[j]
      ensures forall i, j :: 0 <= i < j < |ids| ==>
                var x, y := jobs[ids[i]].startedAt, jobs[ids[j]].startedAt;
                (x.Some? ==> y.Some? && x.value <= y.value) && (x == y ==> TextLe(ids[i], ids[j]))
    {
      TimeOrdersOrder(jobs);
      ids := OrderBy(StartOrder(jobs),
                     set id | id in jobs && jobs[id].status.Running? && jobs[id].owner == Some(runner));
    }

    method ListStaleDurableRunningJobs(now: Time, cutoff: Time) returns (ids: seq<string>)
      ensures forall id :: id in ids <==> id in jobs && StaleDurable(Contents(), jobs[id], now, cutoff)
      ensures forall id :: id in ids <==>
                && id in jobs && jobs[id].status.Running? && jobs[id].leaseUntil.Some? && jobs[id].leaseUntil.value < now
                && jobs[id].launch.state in {Some(Launching), Some(Active)}
                && Present(jobs[id].launch.kind) && Present(jobs[id].launch.token)
                && (Present(jobs[id].launch.supervisorId) || Present(jobs[id].launch.metadataPath))
                && OwnerStale(heartbeats, jobs[id].owner, cutoff)
      ensures SortedBy(LeaseOrder(jobs), ids)
      ensures forall i, j :: 0 <= i < j < |ids| ==> ids[i] != ids[j]
      ensures forall i, j :: 0 <= i < j < |ids| ==>
                var x, y := jobs[ids[i]].leaseUntil, jobs[ids[j]].leaseUntil;
                x.Some? && y.Some? && x.value <= y.value && (x == y ==> TextLe(ids[i], ids[j]))
    {
      TimeOrdersOrder(jobs);
      ids := OrderBy(LeaseOrder(jobs),
                     set id | id in jobs && StaleDurable(Contents(), jobs[id], now, cutoff));
    }

    method AdoptStaleRunningJob(id: string, oldOwner: string, who: Identity, lease: Time, now: Time, cutoff: Time)
      returns (outcome: Outcome)
      modifies this`jobs
      ensures (Contents(), outcome) == Adopt(old(Contents()), id, oldOwner, who, lease, now, cutoff)
      ensures outcome == Done <==>
                && !Blank(who.runnerId) && !Blank(who.instanceId) && lease > 0
                && id in old(jobs) && old(jobs)[id].status.Running? && old(jobs)[id].owner == Some(oldOwner)
                && old(jobs)[id].leaseUntil.Some? && old(jobs)[id].leaseUntil.value < now
                && old(jobs)[id].launch.state in {Some(Launching), Some(Active)}
                && Present(old(jobs)[id].launch.kind) && Present(old(jobs)[id].launch.token)
                && (Present(old(jobs)[id].launch.supervisorId) || Present(old(jobs)[id].launch.metadataPath))
                && (oldOwner in heartbeats ==> heartbeats[oldOwner].at < cutoff)
      ensures jobs == if outcome != Done then old(jobs)
                      else old(jobs)[id := old(jobs)[id].(lockedBy := Some(who.runnerId), owner := Some(who.instanceId),
                                                          leaseUntil := Some(now + lease), updatedAt := now)]
    {
      if !ValidIdentity(who) || lease == 0 {
        return Invalid;
      }
      if !Takeable(Contents(), id, oldOwner, now, cutoff) {
        return NotOwner;
      }
      jobs := jobs[id := Adopted(jobs[id], who, now, lease)];
      return Done;
    }

    method MarkStaleRunningJobUnknown(id: string, oldOwner: string, now: Time, cutoff: Time) returns (outcome: Outcome)
      modifies this`jobs
      ensures (Contents(), outcome) == MarkUnknown(old(Contents()), id, oldOwner, now, cutoff)
      ensures outcome == Done <==>
                && id in old(jobs) && old(jobs)[id].status.Running? && old(jobs)[id].owner == Some(oldOwner)
                && old(jobs)[id].leaseUntil.Some? && old(jobs)[id].leaseUntil.value < now
                && old(jobs)[id].launch.state in {Some(Launching), Some(Active)}
                && Present(old(jobs)[id].launch.kind) && Present(old(jobs)[id].launch.token)
                && (Present(old(jobs)[id].launch.supervisorId) || Present(old(jobs)[id].launch.metadataPath))
                && (oldOwner in heartbeats ==> heartbeats[oldOwner].at < cutoff)
      ensures jobs == if outcome != Done then old(jobs)
                      else old(jobs)[id := old(jobs)[id].(launch := old(jobs)[id].launch.(state := Some(Unknown)), updatedAt := now)]
    {
      if !Takeable(Contents(), id, oldOwner, now, cutoff) {
        return NotOwner;
      }
      jobs := jobs[id := Frozen(jobs[id], now)];
      return Done;
    }

    method HeartbeatRunner(who: Identity, pid: int, now: Time) returns (outcome: Outcome)
      modifies this`heartbeats
      ensures (Contents(), outcome) == Beat(old(Contents()), who, pid, now)
      ensures outcome == Done <==> !Blank(who.runnerId) && !Blank(who.instanceId)
      ensures outcome == Done ==>
                && heartbeats.Keys == old(heartbeats).Keys + {who.instanceId}
                && heartbeats[who.instanceId] == Heartbeat(who.runnerId, pid, now)
                && forall r :: r in old(heartbeats) && r != who.instanceId ==> heartbeats[r] == old(heartbeats)[r]
    {
      if !ValidIdentity(who) {
        return Invalid;
      }
      heartbeats := heartbeats[who.instanceId := Heartbeat(who.runnerId, pid, now)];
      return Done;
    }

    method DeleteRunnerHeartbeat(instance: string)
      modifies this`heartbeats
      ensures Contents() == DeleteBeat(old(Contents()), instance)
      ensures forall r :: r in heartbeats <==> r in old(heartbeats) && r != instance
    {
      heartbeats := heartbeats - {instance};
    }

    method PruneStaleRunnerHeartbeats(before: Time)
      modifies this`heartbeats
      ensures Contents() == Prune(old(Contents()), before)
      ensures forall r :: r in heartbeats <==> r in old(heartbeats) && before <= old(heartbeats)[r].at
      ensures forall r :: r in heartbeats ==> heartbeats[r] == old(heartbeats)[r]
    {
      heartbeats := map r | r in heartbeats && heartbeats[r].at >= before :: heartbeats[r];
    }

    /** INSERT OR IGNORE; on a conflict the row with the same dedupe key is returned. None: the fresh id was taken, so
        nothing was inserted and no row has the key. */
    method EnqueueJob(id: string, task: Task, now: Time) returns (row: Option<string>, inserted: bool)
      modifies this`jobs
      ensures Contents() == Enqueue(old(Contents()), id, task, now)
      ensures inserted <==> id !in old(jobs) && forall other :: other in old(jobs) ==> old(jobs)[other].task.dedupeKey != task.dedupeKey
      ensures inserted ==>
                && row == Some(id) && jobs.Keys == old(jobs).Keys + {id} && jobs[id].status.Pending?
                && jobs[id].task == task.(availableAt := if task.availableAt == 0 then now else task.availableAt, createdAt := now)
                && jobs[id].attempt == Attempt(0, 0, None) && jobs[id].owner.None? && jobs[id].launch == NO_LAUNCH
      ensures forall other :: other in old(jobs) ==> other in jobs && jobs[other] == old(jobs)[other]
      ensures !inserted ==> jobs == old(jobs)
      ensures row.Some? ==> row.value in jobs && jobs[row.value].task.dedupeKey == task.dedupeKey
      ensures row.None? ==> !inserted && forall other :: other in jobs ==> jobs[other].task.dedupeKey != task.dedupeKey
    {
      if !Conflicts(Contents(), id, task.dedupeKey) {
        jobs := jobs[id := NewJob(task, now)];
        return Some(id), true;
      }
      if exists other :: other in jobs && jobs[other].task.dedupeKey == task.dedupeKey {
        var other :| other in jobs && jobs[other].task.dedupeKey == task.dedupeKey;
        return Some(other), false;
      }
      return None, false;
    }
  }
}
