/** The theorems are not empty: runs that use up any attempt limit, count a transition, lose a lease, and freeze a row. */
module Reach {
  import opened Wrappers
  import opened Model
  import opened Queries
  import opened Cluster
  import opened Protocol

  // ---- One launch, step by step, from a state in which no row runs ----

  ghost predicate Resting(s: System)
  {
    s.activity == map[] && forall id :: id in s.db.jobs ==> !s.db.jobs[id].status.Running?
  }

  lemma Claims(cfg: Config, s: System, id: string, task: Task, who: Identity)
    requires Resting(s) && ValidIdentity(who) && cfg.maxGlobal > 0
    requires task.availableAt == 0 && !Conflicts(s.db, id, task.dedupeKey)
    ensures var t := Next(cfg, Next(cfg, s, EnqueueJob(id, task)), Claim(who, [], None, id));
            && t.db == s.db.(jobs := s.db.jobs[id := Claimed(NewJob(task, s.clock), who, s.clock, cfg.lease)])
            && t.activity == map[who.instanceId := Activity(id, Fresh)] && t.clock == s.clock
            && t.history == s.history.(receipts := s.history.receipts + {Receipt(who.instanceId, id, s.clock + cfg.lease)})
  {
    var u := Next(cfg, s, EnqueueJob(id, task));
    assert u == s.(db := s.db.(jobs := s.db.jobs[id := NewJob(task, s.clock)]));
    assert RunningJobs(u.db) == {};
    assert RunningOn(u.db, task.routeName) == {};
    assert Claimable(u.db, ClaimFilter([], cfg.limits, None), id, u.clock);
    assert s.db.jobs[id := NewJob(task, s.clock)][id := Claimed(NewJob(task, s.clock), who, s.clock, cfg.lease)]
        == s.db.jobs[id := Claimed(NewJob(task, s.clock), who, s.clock, cfg.lease)];
  }

  /** The launching runner's row. */
  predicate Held(s: System, r: string, id: string, phase: Phase)
  {
    InPhase(s, r, id, phase) && id in s.db.jobs && Holds(s.db.jobs[id], r, s.clock)
    && s.db.jobs[id].launch.state == Some(Preparing)
  }

  lemma Counts(cfg: Config, s: System, r: string, id: string, generation: int, scope: string)
    requires Held(s, r, id, Fresh) && !Blank(scope)
    requires Attempts(s.db, CounterOf(s.db, id, generation, scope)) < MaxAttempts(cfg, s.db.jobs[id].task.routeName)
    ensures var t := Next(cfg, s, CountAttempt(r, id, generation, scope));
            var key := AttemptKey(s.db.jobs[id].task.issueKey, generation, s.db.jobs[id].task.routeName, scope);
            var n := Attempts(s.db, key) + 1;
            && Held(t, r, id, Granted) && t.activity.Keys == s.activity.Keys && t.clock == s.clock
            && t.db == s.db.(attempts := s.db.attempts[key := n], jobs := s.db.jobs[id := Counted(s.db.jobs[id], n, generation, scope, s.clock)])
            && t.history.launches == s.history.launches && t.history.reversed == s.history.reversed
            && t.history.passed == s.history.passed && t.history.transitions == s.history.transitions
  {
  }

  /** The row on its way through a launch keeps its task, its count and its owner. */
  predicate SameClaim(j: Job, k: Job)
  {
    k.task == j.task && k.attempt == j.attempt && k.status == j.status && k.owner == j.owner && k.leaseUntil == j.leaseUntil
  }

  lemma Commits(cfg: Config, s: System, r: string, id: string, spec: LaunchSpecRecord)
    requires Held(s, r, id, Granted) && ValidSpecRecord(spec)
    ensures var t := Next(cfg, Next(cfg, s, SaveSpec(r, id, spec)), CommitLaunch(r));
            && InPhase(t, r, id, Committed(spec.token)) && t.activity.Keys == s.activity.Keys && t.clock == s.clock
            && t.history == s.history && id in t.db.jobs && SameClaim(s.db.jobs[id], t.db.jobs[id])
            && t.db == s.db.(jobs := s.db.jobs[id := t.db.jobs[id]]) && Durable(t.db.jobs[id])
  {
    var u := Next(cfg, s, SaveSpec(r, id, spec));
    var job := SpecPersisted(s.db.jobs[id], spec, s.clock);
    assert u.db == s.db.(jobs := s.db.jobs[id := job]) && u.history == s.history && u.clock == s.clock;
    assert InPhase(u, r, id, SpecSaved(spec.token)) && Holds(u.db.jobs[id], r, u.clock);
  }

  lemma LaunchesOnce(cfg: Config, s: System, r: string, id: string, token: string)
    requires InPhase(s, r, id, Committed(token))
    ensures var t := Next(cfg, s, Step.Launch(r));
            && t.db == s.db && t.clock == s.clock && t.activity.Keys == s.activity.Keys
            && t.history == s.history.(launches := s.history.launches + multiset{id})
  {
  }

  const SUCCESS := JobFinalize(Succeeded, "", "", "", "", 0, None)

  lemma Ends(cfg: Config, s: System, r: string, id: string)
    requires id in s.db.jobs && Holds(s.db.jobs[id], r, s.clock) && s.activity.Keys == {r}
    ensures var t := Next(cfg, Next(cfg, s, Leave(r)), FinalizeJob(r, id, SUCCESS));
            && t.activity == map[] && t.clock == s.clock && id in t.db.jobs && t.db.jobs[id].status == Succeeded
            && t.db == s.db.(jobs := s.db.jobs[id := t.db.jobs[id]])
            && t.db.jobs[id].task == s.db.jobs[id].task && t.db.jobs[id].attempt == s.db.jobs[id].attempt
            && t.history.launches == s.history.launches && t.history.reversed == s.history.reversed
  {
    assert s.activity - {r} == map[];
  }

  // ---- Any attempt limit is used up ----

  /** Every job gets its own id. */
  ghost predicate AllDifferent(ids: nat -> string)
  {
    forall i, j :: ids(i) == ids(j) ==> i == j
  }

  /** The first k jobs were launched once each under one counter, and are finished. */
  ghost predicate Worked(s: System, key: AttemptKey, ids: nat -> string, k: nat)
  {
    && s.activity == map[] && |s.db.jobs.Keys| == k && (forall i :: i >= k ==> ids(i) !in s.db.jobs)
    && (forall id :: id in s.db.jobs ==>
          IsTerminal(s.db.jobs[id].status) && Provenance(s.db.jobs[id]) == key && s.db.jobs[id].task.dedupeKey == id)
    && (forall id :: id in s.db.jobs ==> s.history.launches[id] == 1)
    && (forall id :: id in s.history.launches ==> id in s.db.jobs)
    && s.history.reversed == {} && Attempts(s.db, key) == k
  }

  /** What every launched job here is about, but for its id. */
  function TaskFor(key: AttemptKey, id: string): Task
  {
    Task(key.issueKey, key.routeName, "", 0, id, 0, 0)
  }

  /** A set of states that no step leaves. */
  ghost predicate Closed(cfg: Config, reach: System -> bool)
  {
    reach(START) && forall s, step :: reach(s) ==> reach(Next(cfg, s, step))
  }

  lemma OneMore(cfg: Config, reach: System -> bool, s: System, key: AttemptKey, ids: nat -> string, k: nat,
                who: Identity, spec: LaunchSpecRecord)
    returns (t: System)
    requires Closed(cfg, reach) && reach(s) && cfg.maxGlobal > 0 && ValidIdentity(who) && ValidSpecRecord(spec)
    requires AllDifferent(ids) && !Blank(key.scope)
    requires Worked(s, key, ids, k) && k < MaxAttempts(cfg, key.routeName)
    ensures reach(t) && Worked(t, key, ids, k + 1)
  {
    var id := ids(k);
    var u := StartsNew(cfg, reach, s, id, key, who);
    t := LaunchAndEnd(cfg, reach, u, who.instanceId, id, key, spec);
    var job := t.db.jobs[id];
    assert u.db.jobs[id := job] == s.db.jobs[id := job];
    AddsOne(s, t, key, ids, k, job);
  }

  lemma StartsNew(cfg: Config, reach: System -> bool, s: System, id: string, key: AttemptKey, who: Identity) returns (u: System)
    requires Closed(cfg, reach) && reach(s) && cfg.maxGlobal > 0 && ValidIdentity(who)
    requires Resting(s) && id !in s.db.jobs && forall other :: other in s.db.jobs ==> s.db.jobs[other].task.dedupeKey == other
    ensures reach(u) && Held(u, who.instanceId, id, Fresh) && u.activity.Keys == {who.instanceId}
    ensures u.db.jobs == s.db.jobs[id := u.db.jobs[id]] && u.db.attempts == s.db.attempts
    ensures u.db.jobs[id].task.issueKey == key.issueKey && u.db.jobs[id].task.routeName == key.routeName
    ensures u.db.jobs[id].task.dedupeKey == id
    ensures u.history.launches == s.history.launches && u.history.reversed == s.history.reversed
  {
    assert !Conflicts(s.db, id, id);
    Claims(cfg, s, id, TaskFor(key, id), who);
    u := Next(cfg, Next(cfg, s, EnqueueJob(id, TaskFor(key, id))), Claim(who, [], None, id));
  }

  lemma LaunchAndEnd(cfg: Config, reach: System -> bool, s: System, r: string, id: string, key: AttemptKey, spec: LaunchSpecRecord)
    returns (t: System)
    requires Closed(cfg, reach) && reach(s)
    requires Held(s, r, id, Fresh) && s.activity.Keys == {r} && ValidSpecRecord(spec) && !Blank(key.scope)
    requires s.db.jobs[id].task.issueKey == key.issueKey && s.db.jobs[id].task.routeName == key.routeName
    requires Attempts(s.db, key) < MaxAttempts(cfg, key.routeName)
    ensures reach(t) && id in t.db.jobs && IsTerminal(t.db.jobs[id].status) && t.activity == map[]
    ensures Provenance(t.db.jobs[id]) == key && t.db.jobs[id].task == s.db.jobs[id].task
    ensures t.db.jobs == s.db.jobs[id := t.db.jobs[id]] && Attempts(t.db, key) == Attempts(s.db, key) + 1
    ensures t.history.launches == s.history.launches + multiset{id} && t.history.reversed == s.history.reversed
  {
    Counts(cfg, s, r, id, key.generation, key.scope);
    var u := Next(cfg, s, CountAttempt(r, id, key.generation, key.scope));
    Commits(cfg, u, r, id, spec);
    var v := Next(cfg, Next(cfg, u, SaveSpec(r, id, spec)), CommitLaunch(r));
    LaunchesOnce(cfg, v, r, id, spec.token);
    var w := Next(cfg, v, Step.Launch(r));
    Ends(cfg, w, r, id);
    t := Next(cfg, Next(cfg, w, Leave(r)), FinalizeJob(r, id, SUCCESS));
  }

  lemma AddsOne(s: System, t: System, key: AttemptKey, ids: nat -> string, k: nat, job: Job)
    requires AllDifferent(ids) && Worked(s, key, ids, k)
    requires IsTerminal(job.status) && Provenance(job) == key && job.task.dedupeKey == ids(k)
    requires t.db.jobs == s.db.jobs[ids(k) := job] && t.activity == map[] && Attempts(t.db, key) == k + 1
    requires t.history.launches == s.history.launches + multiset{ids(k)} && t.history.reversed == {}
    ensures Worked(t, key, ids, k + 1)
  {
    assert t.db.jobs.Keys == s.db.jobs.Keys + {ids(k)};
    assert ids(k) !in s.history.launches;
    forall i | i >= k + 1 ensures ids(i) !in t.db.jobs {
      assert ids(i) != ids(k);
    }
    forall id | id in t.db.jobs ensures t.history.launches[id] == 1 {
      if id != ids(k) {
        assert id in s.db.jobs;
      }
    }
  }

  lemma {:induction false} ManyWorked(cfg: Config, reach: System -> bool, key: AttemptKey, ids: nat -> string, k: nat,
                                      who: Identity, spec: LaunchSpecRecord)
    returns (s: System)
    requires Closed(cfg, reach) && cfg.maxGlobal > 0 && ValidIdentity(who) && ValidSpecRecord(spec)
    requires AllDifferent(ids) && !Blank(key.scope) && k <= MaxAttempts(cfg, key.routeName)
    ensures reach(s) && Worked(s, key, ids, k)
    decreases k
  {
    if k == 0 {
      s := START;
    } else {
      var before := ManyWorked(cfg, reach, key, ids, k - 1, who, spec);
      s := OneMore(cfg, reach, before, key, ids, k - 1, who, spec);
    }
  }

  ghost predicate Reachable(cfg: Config, s: System)
  {
    exists steps :: s == Reached(cfg, steps)
  }

  lemma ReachableIsClosed(cfg: Config)
    ensures Reachable(cfg, START) && forall s, step :: Reachable(cfg, s) ==> Reachable(cfg, Next(cfg, s, step))
  {
    assert START == Reached(cfg, []);
    forall s, step | Reachable(cfg, s) ensures Reachable(cfg, Next(cfg, s, step)) {
      var steps :| s == Reached(cfg, steps);
      OneMoreStep(cfg, steps, step);
    }
  }

  /** Whatever the limit, some run launches that many jobs on one counter: the cap cannot be lowered. */
  lemma CapIsReached(cfg: Config, key: AttemptKey, ids: nat -> string, who: Identity, spec: LaunchSpecRecord)
    requires cfg.maxGlobal > 0 && ValidIdentity(who) && ValidSpecRecord(spec) && !Blank(key.scope)
    requires AllDifferent(ids)
    ensures exists steps :: |WorkedLaunches(Reached(cfg, steps), key)| == MaxAttempts(cfg, key.routeName)
  {
    var n := MaxAttempts(cfg, key.routeName);
    ReachableIsClosed(cfg);
    var s := ManyWorked(cfg, x => Reachable(cfg, x), key, ids, n, who, spec);
    var steps :| s == Reached(cfg, steps);
    assert WorkedLaunches(s, key) == s.db.jobs.Keys;
  }

  // ---- Single jobs ----

  /** A first job, claimed. */
  lemma FirstClaim(cfg: Config, before: seq<Step>, id: string, task: Task, who: Identity) returns (steps: seq<Step>)
    requires Resting(Reached(cfg, before)) && Reached(cfg, before).db.jobs == map[]
    requires ValidIdentity(who) && cfg.maxGlobal > 0 && task.availableAt == 0
    ensures var s, t := Reached(cfg, before), Reached(cfg, steps);
            && Held(t, who.instanceId, id, Fresh) && t.clock == s.clock && t.db.jobs[id].leaseUntil == Some(s.clock + cfg.lease)
            && t.db.jobs[id].task.issueKey == task.issueKey && t.db.jobs[id].task.routeName == task.routeName
            && t.db.attempts == s.db.attempts && t.db.issues == s.db.issues && t.db.heartbeats == s.db.heartbeats
            && t.history.launches == s.history.launches && t.history.passed == s.history.passed
  {
    var a := before + [EnqueueJob(id, task)];
    steps := a + [Claim(who, [], None, id)];
    Claims(cfg, Reached(cfg, before), id, task, who);
    OneMoreStep(cfg, before, EnqueueJob(id, task));
    OneMoreStep(cfg, a, Claim(who, [], None, id));
  }

  /** A granted job, committed. */
  lemma Committing(cfg: Config, before: seq<Step>, r: string, id: string, spec: LaunchSpecRecord) returns (steps: seq<Step>)
    requires Held(Reached(cfg, before), r, id, Granted) && ValidSpecRecord(spec)
    ensures var s, t := Reached(cfg, before), Reached(cfg, steps);
            && InPhase(t, r, id, Committed(spec.token)) && t.clock == s.clock && t.history == s.history
            && id in t.db.jobs && SameClaim(s.db.jobs[id], t.db.jobs[id]) && Durable(t.db.jobs[id])
            && t.db.issues == s.db.issues && t.db.heartbeats == s.db.heartbeats
  {
    steps := before + [SaveSpec(r, id, spec)] + [CommitLaunch(r)];
    Commits(cfg, Reached(cfg, before), r, id, spec);
    OneMoreStep(cfg, before, SaveSpec(r, id, spec));
    OneMoreStep(cfg, before + [SaveSpec(r, id, spec)], CommitLaunch(r));
  }

  /** A first job, claimed and counted within its limit. */
  lemma FirstGrant(cfg: Config, before: seq<Step>, id: string, task: Task, who: Identity, scope: string) returns (steps: seq<Step>)
    requires Resting(Reached(cfg, before)) && Reached(cfg, before).db.jobs == map[] && Reached(cfg, before).db.attempts == map[]
    requires ValidIdentity(who) && cfg.maxGlobal > 0 && task.availableAt == 0
    requires MaxAttempts(cfg, task.routeName) > 0 && !Blank(scope)
    ensures var s, t := Reached(cfg, before), Reached(cfg, steps);
            && Held(t, who.instanceId, id, Granted) && t.clock == s.clock && t.db.jobs[id].leaseUntil == Some(s.clock + cfg.lease)
            && t.db.issues == s.db.issues && t.db.heartbeats == s.db.heartbeats
            && t.history.launches == s.history.launches && t.history.passed == s.history.passed
  {
    var claimed := FirstClaim(cfg, before, id, task, who);
    steps := claimed + [CountAttempt(who.instanceId, id, 0, scope)];
    Counts(cfg, Reached(cfg, claimed), who.instanceId, id, 0, scope);
    OneMoreStep(cfg, claimed, CountAttempt(who.instanceId, id, 0, scope));
  }

  lemma Snapshots(cfg: Config, key: string)
    ensures Reached(cfg, [SnapshotIssue(key)]) == START.(db := EMPTY_DB.(issues := map[key := IssueState(0, 0)]))
  {
    OneMoreStep(cfg, [], SnapshotIssue(key));
    assert [] + [SnapshotIssue(key)] == [SnapshotIssue(key)];
    assert EMPTY_DB.issues[key := IssueState(0, 0)] == map[key := IssueState(0, 0)];
  }

  /** The ordinary course: the label change of on_start is counted within the limit, and the job is launched. */
  lemma TransitionIsCounted(cfg: Config, id: string, task: Task, who: Identity, spec: LaunchSpecRecord, scope: string)
    requires cfg.maxGlobal > 0 && MaxAttempts(cfg, task.routeName) > 0 && WithinTransitions(cfg, 1)
    requires ValidIdentity(who) && ValidSpecRecord(spec) && !Blank(scope) && task.availableAt == 0
    ensures exists steps :: var s := Reached(cfg, steps);
              && s.history.launches[id] == 1 && s.history.passed[task.issueKey] == 1
              && task.issueKey in s.db.issues && s.db.issues[task.issueKey].transitions == 1
  {
    var r, key := who.instanceId, task.issueKey;
    Snapshots(cfg, key);
    var granted := FirstGrant(cfg, [SnapshotIssue(key)], id, task, who, scope);
    Passes(cfg, Reached(cfg, granted), r, id, key);
    OneMoreStep(cfg, granted, CountTransition(r, id, key));
    var committed := Committing(cfg, granted + [CountTransition(r, id, key)], r, id, spec);
    LaunchesOnce(cfg, Reached(cfg, committed), r, id, spec.token);
    OneMoreStep(cfg, committed, Step.Launch(r));
    assert Reached(cfg, committed + [Step.Launch(r)]).history.launches[id] == 1;
  }

  lemma Passes(cfg: Config, s: System, r: string, id: string, key: string)
    requires Held(s, r, id, Granted) && key in s.db.issues && WithinTransitions(cfg, s.db.issues[key].transitions + 1)
    ensures var t, st := Next(cfg, s, CountTransition(r, id, key)), s.db.issues[key];
            && t.db == s.db.(issues := s.db.issues[key := st.(transitions := st.transitions + 1)])
            && t.history.passed == s.history.passed + multiset{key} && t.history.launches == s.history.launches
            && Held(t, r, id, Granted) && t.clock == s.clock
  {
  }

  /** A lease can be lost under a live owner: the state LostLeaseStays speaks of. */
  lemma LeaseIsLost(cfg: Config, id: string, task: Task, who: Identity, pid: int)
    requires cfg.maxGlobal > 0 && ValidIdentity(who) && task.availableAt == 0
    ensures exists steps :: var s := Reached(cfg, steps);
              && id in s.db.jobs && s.db.jobs[id].status.Running? && s.db.jobs[id].owner == Some(who.instanceId)
              && Expired(s.db.jobs[id], s.clock) && !OwnerStale(s.db.heartbeats, s.db.jobs[id].owner, s.clock)
  {
    var late := cfg.lease + 1;
    var a := FirstClaim(cfg, [], id, task, who);
    var b := a + [Tick(late)];
    OneMoreStep(cfg, a, Tick(late));
    OneMoreStep(cfg, b, Heartbeats(who, pid, late));
    var s := Reached(cfg, b + [Heartbeats(who, pid, late)]);
    assert Blank("");
    assert who.instanceId != "";
    assert s.db.jobs[id] == Reached(cfg, a).db.jobs[id] && s.db.heartbeats[who.instanceId].at == s.clock;
  }

  /** A committed launch can be frozen: the state FrozenForGood speaks of. */
  lemma RowIsFrozen(cfg: Config, id: string, task: Task, who: Identity, spec: LaunchSpecRecord, scope: string)
    requires cfg.maxGlobal > 0 && MaxAttempts(cfg, task.routeName) > 0
    requires ValidIdentity(who) && ValidSpecRecord(spec) && !Blank(scope) && task.availableAt == 0
    ensures exists steps :: var s := Reached(cfg, steps);
              id in s.db.jobs && s.db.jobs[id].status.Running? && s.db.jobs[id].launch.state == Some(Unknown)
  {
    var late := cfg.lease + 1;
    var granted := FirstGrant(cfg, [], id, task, who, scope);
    var committed := Committing(cfg, granted, who.instanceId, id, spec);
    OneMoreStep(cfg, committed, Tick(late));
    var step := FreezeJob(id, who.instanceId, late, 0);
    Freezes(cfg, Reached(cfg, committed + [Tick(late)]), id, who.instanceId, late);
    OneMoreStep(cfg, committed + [Tick(late)], step);
    assert Reached(cfg, committed + [Tick(late)] + [step]).db.jobs[id].launch.state == Some(Unknown);
  }

  lemma Freezes(cfg: Config, s: System, id: string, owner: string, at: Time)
    requires at <= s.clock && Takeable(s.db, id, owner, at, 0)
    ensures var t := Next(cfg, s, FreezeJob(id, owner, at, 0));
            id in t.db.jobs && t.db.jobs[id].status.Running? && t.db.jobs[id].launch.state == Some(Unknown)
  {
  }
}
