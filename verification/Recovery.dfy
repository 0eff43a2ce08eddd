/** Recovery of rows whose lease expired and whose owner stopped its heartbeat. */
module Recovery {
  import opened Wrappers
  import opened Model
  import opened Queries
  import opened Cluster
  import opened Rows
  import opened Protocol
  import opened Workflow
  import opened Sqlite

  /** A running row whose lease ran out and whose owner is stale: somebody must take care of it. */
  predicate Orphaned(db: Db, job: Job, now: Time, cutoff: Time)
  {
    job.status.Running? && Expired(job, now) && OwnerStale(db.heartbeats, job.owner, cutoff)
  }

  predicate IsFrozen(job: Job)
  {
    job.launch.state == Some(Unknown)
  }

  /** The LEFT JOIN test of the listings and the NOT EXISTS test of the updates agree on every named owner. */
  lemma StaleTestsAgree(heartbeats: map<string, Heartbeat>, owner: string, cutoff: Time)
    ensures OwnerStale(heartbeats, Some(owner), cutoff) <==> owner == "" || NoFreshHeartbeat(heartbeats, owner, cutoff)
  {
  }

  /** Release, adoption and freezing split the orphaned rows: in every reachable state exactly one applies, and what the
      recovery scan lists is exactly what adoption and mark-unknown then accept. */
  lemma RecoveryPartition(cfg: Config, steps: seq<Step>, id: string, now: Time, cutoff: Time)
    requires ValidConfig(cfg) && id in Reached(cfg, steps).db.jobs
    requires Orphaned(Reached(cfg, steps).db, Reached(cfg, steps).db.jobs[id], now, cutoff)
    ensures var db := Reached(cfg, steps).db; var job := db.jobs[id];
            var releasable, adoptable, frozen :=
              Releasable(db, job, now, cutoff), StaleDurable(db, job, now, cutoff), IsFrozen(job);
            && (releasable || adoptable || frozen)
            && !(releasable && adoptable) && !(releasable && frozen) && !(adoptable && frozen)
            && (releasable <==> job.launch.state == Some(Preparing))
            && (adoptable <==> job.launch.state in {Some(Launching), Some(Active)})
            && (adoptable <==> Takeable(db, id, Text(job.owner), now, cutoff))
  {
    ReachedInv(cfg, steps);
    assert RowOk(cfg.lease, Reached(cfg, steps).clock, Reached(cfg, steps).db.jobs[id]);
  }

  /** The fate of a lost lease. No runner holds the row any more, its owner included. While the owner's heartbeat is fresh at
      the cutoff no recovery accepts it; once it is stale, a row that is not frozen is accepted by exactly one. */
  lemma LostLeaseFate(cfg: Config, steps: seq<Step>, id: string, now: Time, cutoff: Time)
    requires ValidConfig(cfg) && id in Reached(cfg, steps).db.jobs && now <= Reached(cfg, steps).clock
    requires Reached(cfg, steps).db.jobs[id].status.Running? && Expired(Reached(cfg, steps).db.jobs[id], now)
    ensures var s := Reached(cfg, steps); var job := s.db.jobs[id];
            && (forall r :: !Holds(job, r, s.clock))
            && (forall o :: Takeable(s.db, id, o, now, cutoff) ==> job.owner == Some(o))
            && (!OwnerStale(s.db.heartbeats, job.owner, cutoff) ==>
                  !Releasable(s.db, job, now, cutoff) && !Takeable(s.db, id, Text(job.owner), now, cutoff))
            && (OwnerStale(s.db.heartbeats, job.owner, cutoff) && !IsFrozen(job) ==>
                  (Releasable(s.db, job, now, cutoff) <==> !Takeable(s.db, id, Text(job.owner), now, cutoff)))
  {
    ReachedInv(cfg, steps);
    var s := Reached(cfg, steps);
    assert RowOk(cfg.lease, s.clock, s.db.jobs[id]);
  }

  /** What an observation can act on: in every reachable state a row carries a launch record exactly when it is running under
      the wrapper and past preparing, and not frozen. */
  lemma LaunchRecordMeans(cfg: Config, steps: seq<Step>, id: string)
    requires ValidConfig(cfg) && id in Reached(cfg, steps).db.jobs
    ensures var job := Reached(cfg, steps).db.jobs[id];
            HasLaunchRecord(job) <==>
              job.status.Running? && job.launch.kind == Some("wrapper") && job.launch.state in {Some(Launching), Some(Active)}
  {
    ReachedInv(cfg, steps);
    assert RowOk(cfg.lease, Reached(cfg, steps).clock, Reached(cfg, steps).db.jobs[id]);
  }

  datatype Summary = Summary(scanned: nat, adopted: nat, markedUnknown: nat, ownershipLost: nat)

  /** What the recovery scan leaves of a row it lists. */
  predicate Recovered(job: Job, k: Job, who: Identity, lease: Time, now: Time)
  {
    k == Adopted(job, who, now, lease) || k == Frozen(job, now)
  }

  /** The observation before adoption lets it go ahead. */
  predicate Inspected(inspect: (string, bool) -> Option<Observation>, id: string, job: Job)
  {
    HasLaunchRecord(job) && inspect(id, false).Some? && inspect(id, false).value.state != RunUnknown
  }

  /** recoverOneStaleDurable, for a row as it was listed: freeze what cannot be inspected or is unknown, adopt the rest. */
  method RecoverOne(store: Store, inspect: (string, bool) -> Option<Observation>, who: Identity, lease: Time,
                    now: Time, cutoff: Time, id: string, job: Job)
    returns (ok: bool, outcome: Outcome, adopted: bool)
    requires ValidIdentity(who) && lease > 0
    modifies store`jobs
    ensures outcome == Done ==>
              Takeable(old(store.Contents()), id, Text(job.owner), now, cutoff) && (adopted <==> Inspected(inspect, id, job))
    ensures outcome == Done ==>
              var job := old(store.jobs)[id];
              store.jobs == old(store.jobs)[id := if adopted then Adopted(job, who, now, lease) else Frozen(job, now)]
    ensures outcome != Done ==> outcome == NotOwner && !adopted && store.jobs == old(store.jobs)
    ensures ok && Takeable(old(store.Contents()), id, Text(job.owner), now, cutoff) ==> outcome == Done
    ensures ok && adopted ==> inspect(id, true).Some?
  {
    ok, adopted := true, false;
    if !HasLaunchRecord(job) {
      outcome := store.MarkStaleRunningJobUnknown(id, Text(job.owner), now, cutoff);
      return;
    }
    var obs := inspect(id, false);
    if obs.None? {
      return false, NotOwner, false;
    }
    if ObservationToDecision(obs.value) == DecideUnknown {
      outcome := store.MarkStaleRunningJobUnknown(id, Text(job.owner), now, cutoff);
      return;
    }
    outcome := store.AdoptStaleRunningJob(id, Text(job.owner), who, lease, now, cutoff);
    if outcome != Done {
      return;
    }
    adopted := true;
    ok := inspect(id, true).Some?;
  }

  /** What the recovery scan leaves of a row: adopted or frozen exactly when a recovery update accepts it. */
  predicate Scanned(db: Db, id: string, k: Job, who: Identity, lease: Time, now: Time, cutoff: Time)
    requires id in db.jobs
  {
    if Takeable(db, id, Text(db.jobs[id].owner), now, cutoff) then Recovered(db.jobs[id], k, who, lease, now)
    else k == db.jobs[id]
  }

  /** Which of these rows were adopted and which were frozen, and that the summary counts them. */
  ghost predicate Sums(db: Db, done: set<string>, recovered: seq<string>, frozen: set<string>, summary: Summary,
                       inspect: (string, bool) -> Option<Observation>, now: Time, cutoff: Time)
  {
    && summary.adopted == |recovered| && summary.markedUnknown == |frozen|
    && StringSet(recovered) <= done && frozen <= done
    && forall id :: id in done && id in db.jobs ==> Sorted(db, id, recovered, frozen, inspect, now, cutoff)
  }

  /** The row is adopted or frozen when a recovery update accepts it, by what the inspection before adoption says. */
  predicate Sorted(db: Db, id: string, recovered: seq<string>, frozen: set<string>, inspect: (string, bool) -> Option<Observation>,
                   now: Time, cutoff: Time)
    requires id in db.jobs
  {
    && (id in recovered <==> Takeable(db, id, Text(db.jobs[id].owner), now, cutoff) && Inspected(inspect, id, db.jobs[id]))
    && (id in frozen <==> Takeable(db, id, Text(db.jobs[id].owner), now, cutoff) && !Inspected(inspect, id, db.jobs[id]))
  }

  lemma SumsOne(db: Db, done: set<string>, recovered: seq<string>, frozen: set<string>, summary: Summary,
                inspect: (string, bool) -> Option<Observation>, now: Time, cutoff: Time, id: string, taken: bool, adopted: bool)
    requires Sums(db, done, recovered, frozen, summary, inspect, now, cutoff) && id !in done && id in db.jobs
    requires taken <==> Takeable(db, id, Text(db.jobs[id].owner), now, cutoff)
    requires taken ==> (adopted <==> Inspected(inspect, id, db.jobs[id]))
    requires adopted ==> taken
    ensures Sums(db, done + {id}, if adopted then recovered + [id] else recovered,
                 if taken && !adopted then frozen + {id} else frozen, Counting(summary, taken, adopted), inspect, now, cutoff)
  {
  }

  function Counting(summary: Summary, taken: bool, adopted: bool): Summary
  {
    if adopted then summary.(adopted := summary.adopted + 1)
    else if taken then summary.(markedUnknown := summary.markedUnknown + 1)
    else summary.(ownershipLost := summary.ownershipLost + 1)
  }

  /** Half-way through the scan: the rows done are scanned, the others as they were. */
  ghost predicate Progress(db: Db, jobs: map<string, Job>, done: set<string>, recovered: seq<string>,
                           who: Identity, lease: Time, now: Time, cutoff: Time)
  {
    && jobs.Keys == db.jobs.Keys
    && (forall id :: id in jobs && id !in done ==> jobs[id] == db.jobs[id])
    && (forall id :: id in jobs && id in done ==> Scanned(db, id, jobs[id], who, lease, now, cutoff))
    && (forall id :: id in recovered ==> id in jobs && id in done && jobs[id] == Adopted(db.jobs[id], who, now, lease))
  }

  lemma ProgressOne(db: Db, jobs: map<string, Job>, done: set<string>, recovered: seq<string>, id: string, taken: bool, adopted: bool,
                    who: Identity, lease: Time, now: Time, cutoff: Time)
    requires Progress(db, jobs, done, recovered, who, lease, now, cutoff) && id in jobs && id !in done
    requires taken <==> Takeable(db, id, Text(db.jobs[id].owner), now, cutoff)
    requires adopted ==> taken
    ensures var job := db.jobs[id];
            var jobs' := if taken then jobs[id := if adopted then Adopted(job, who, now, lease) else Frozen(job, now)] else jobs;
            Progress(db, jobs', done + {id}, if adopted then recovered + [id] else recovered, who, lease, now, cutoff)
  {
  }

  /** One listed row of the scan. */
  method RecoverNext(store: Store, inspect: (string, bool) -> Option<Observation>, who: Identity, lease: Time, now: Time, cutoff: Time,
                     id: string, recovered: seq<string>, summary: Summary, ghost db: Db, ghost done: set<string>, ghost frozen: set<string>)
    returns (ok: bool, recovered': seq<string>, summary': Summary, ghost frozen': set<string>)
    requires ValidIdentity(who) && lease > 0 && store.heartbeats == db.heartbeats && id in store.jobs && id !in done
    requires Progress(db, store.jobs, done, recovered, who, lease, now, cutoff)
    requires Sums(db, done, recovered, frozen, summary, inspect, now, cutoff)
    modifies store`jobs
    ensures store.jobs.Keys == old(store.jobs).Keys
    ensures ok ==> Progress(db, store.jobs, done + {id}, recovered', who, lease, now, cutoff)
    ensures ok ==> Sums(db, done + {id}, recovered', frozen', summary', inspect, now, cutoff)
    ensures ok ==> && summary'.scanned == summary.scanned
                   && summary'.adopted + summary'.markedUnknown + summary'.ownershipLost
                      == summary.adopted + summary.markedUnknown + summary.ownershipLost + 1
  {
    ghost var jobs := store.jobs;
    var outcome, adopted;
    ok, outcome, adopted := RecoverOne(store, inspect, who, lease, now, cutoff, id, store.jobs[id]);
    recovered', summary', frozen' := recovered, summary, frozen;
    if !ok {
      return;
    }
    SumsOne(db, done, recovered, frozen, summary, inspect, now, cutoff, id, outcome == Done, adopted);
    ProgressOne(db, jobs, done, recovered, id, outcome == Done, adopted, who, lease, now, cutoff);
    summary' := Counting(summary, outcome == Done, adopted);
    recovered' := if adopted then recovered + [id] else recovered;
    frozen' := if outcome == Done && !adopted then frozen + {id} else frozen;
  }

  /** The loop over the listed rows. */
  method RecoverRows(store: Store, ids: seq<string>, inspect: (string, bool) -> Option<Observation>, who: Identity,
                     lease: Time, now: Time, cutoff: Time)
    returns (ok: bool, recovered: seq<string>, summary: Summary, ghost frozen: set<string>)
    requires ValidIdentity(who) && lease > 0
    requires forall i :: 0 <= i < |ids| ==> ids[i] in store.jobs
    requires forall i, j :: 0 <= i < j < |ids| ==> ids[i] != ids[j]
    modifies store`jobs
    ensures store.jobs.Keys == old(store.jobs).Keys
    ensures ok ==> Progress(old(store.Contents()), store.jobs, StringSet(ids), recovered, who, lease, now, cutoff)
    ensures ok ==> Sums(old(store.Contents()), StringSet(ids), recovered, frozen, summary, inspect, now, cutoff)
    ensures ok ==> summary.scanned == |ids| == summary.adopted + summary.markedUnknown + summary.ownershipLost
  {
    ok, recovered, summary, frozen := true, [], Summary(|ids|, 0, 0, 0), {};
    ghost var before := store.Contents();
    for i := 0 to |ids|
      invariant store.heartbeats == before.heartbeats && ok && store.jobs.Keys == before.jobs.Keys
      invariant Progress(before, store.jobs, StringSet(ids[..i]), recovered, who, lease, now, cutoff)
      invariant Sums(before, StringSet(ids[..i]), recovered, frozen, summary, inspect, now, cutoff)
      invariant summary.scanned == |ids| && i == summary.adopted + summary.markedUnknown + summary.ownershipLost
    {
      ghost var done := StringSet(ids[..i]);
      assert StringSet(ids[..i + 1]) == done + {ids[i]};
      ok, recovered, summary, frozen :=
        RecoverNext(store, inspect, who, lease, now, cutoff, ids[i], recovered, summary, before, done, frozen);
      if !ok {
        return;
      }
    }
    assert ids[..|ids|] == ids;
  }

  /** RecoverStaleDurableRunningJobs: supervisor inspection may answer anything; None is an inspection error, which stops
      the pass. */
  method RecoverStaleDurableRunningJobs(store: Store, inspect: (string, bool) -> Option<Observation>, who: Identity,
                                        lease: Time, now: Time, cutoff: Time)
    returns (ok: bool, recovered: seq<string>, summary: Summary, ghost frozen: set<string>)
    requires ValidIdentity(who) && lease > 0
    modifies store`jobs
    ensures store.jobs.Keys == old(store.jobs).Keys
    ensures ok ==> forall id :: id in store.jobs ==> Scanned(old(store.Contents()), id, store.jobs[id], who, lease, now, cutoff)
    ensures ok ==> forall id :: id in recovered ==>
                     id in store.jobs && store.jobs[id] == Adopted(old(store.jobs)[id], who, now, lease)
    ensures ok ==>
              summary.scanned == summary.adopted + summary.markedUnknown + summary.ownershipLost && summary.adopted == |recovered|
    ensures ok ==>
              && summary.markedUnknown == |frozen|
              && forall id :: id in old(store.jobs) ==> Sorted(old(store.Contents()), id, recovered, frozen, inspect, now, cutoff)
  {
    var ids := store.ListStaleDurableRunningJobs(now, cutoff);
    ghost var before := store.Contents();
    ok, recovered, summary, frozen := RecoverRows(store, ids, inspect, who, lease, now, cutoff);
    if ok {
      UnlistedAreScanned(before, ids, who, lease, now, cutoff);
      UnlistedAreSorted(before, ids, recovered, frozen, inspect, now, cutoff);
    }
  }

  lemma UnlistedAreSorted(db: Db, ids: seq<string>, recovered: seq<string>, frozen: set<string>,
                          inspect: (string, bool) -> Option<Observation>, now: Time, cutoff: Time)
    requires forall id :: id in ids <==> id in db.jobs && StaleDurable(db, db.jobs[id], now, cutoff)
    requires StringSet(recovered) <= StringSet(ids) && frozen <= StringSet(ids)
    ensures forall id :: id in db.jobs && id !in ids ==> Sorted(db, id, recovered, frozen, inspect, now, cutoff)
  {
    forall id | id in db.jobs && id !in ids ensures Sorted(db, id, recovered, frozen, inspect, now, cutoff) {
      StaleTestsAgree(db.heartbeats, Text(db.jobs[id].owner), cutoff);
      assert id !in StringSet(recovered);
    }
  }

  /** The update accepts no row that the scan did not list. */
  lemma UnlistedAreScanned(db: Db, ids: seq<string>, who: Identity, lease: Time, now: Time, cutoff: Time)
    requires forall id :: id in ids <==> id in db.jobs && StaleDurable(db, db.jobs[id], now, cutoff)
    ensures forall id :: id in db.jobs && id !in ids ==> Scanned(db, id, db.jobs[id], who, lease, now, cutoff)
  {
    forall id | id in db.jobs && id !in ids ensures Scanned(db, id, db.jobs[id], who, lease, now, cutoff) {
      StaleTestsAgree(db.heartbeats, Text(db.jobs[id].owner), cutoff);
    }
  }

  /** After a recovery pass a running row has a live lease, an owner with a fresh heartbeat, an unknown launch state, or is
      one of the caller's own active jobs. */
  predicate Cared(db: Db, id: string, now: Time, cutoff: Time, current: string, active: set<string>)
    requires id in db.jobs
  {
    var job := db.jobs[id];
    job.status.Running? ==>
      !Expired(job, now) || !OwnerStale(db.heartbeats, job.owner, cutoff) || IsFrozen(job) || Excluded(id, job, current, active)
  }

  lemma PassCares(db: Db, mid: Db, id: string, who: Identity, lease: Time, clock: Time, now: Time, cutoff: Time,
                  current: string, active: set<string>)
    requires id in db.jobs && mid.jobs.Keys == db.jobs.Keys && mid.heartbeats == db.heartbeats && lease > 0
    requires RowOk(lease, clock, db.jobs[id])
    requires Scanned(db, id, mid.jobs[id], who, lease, now, cutoff)
    ensures Cared(ReleaseExpired(mid, now, cutoff, current, active), id, now, cutoff, current, active)
  {
  }

  /** Recovery completeness: one error-free pass with no other runner in between leaves no orphaned row behind. */
  method RecoveryPass(store: Store, inspect: (string, bool) -> Option<Observation>, who: Identity, lease: Time,
                      now: Time, cutoff: Time, active: seq<string>, ghost clock: Time)
    returns (ok: bool)
    requires ValidIdentity(who) && lease > 0
    requires forall id :: id in store.jobs ==> RowOk(lease, clock, store.jobs[id])
    modifies store`jobs
    ensures ok ==> forall id :: id in store.jobs ==>
              Cared(store.Contents(), id, now, cutoff, who.instanceId, StringSet(active))
  {
    ghost var db := store.Contents();
    var recovered, summary;
    ghost var frozen;
    ok, recovered, summary, frozen := RecoverStaleDurableRunningJobs(store, inspect, who, lease, now, cutoff);
    if !ok {
      return;
    }
    ghost var mid := store.Contents();
    var released := store.ReleaseExpiredLeases(now, cutoff, who.instanceId, active + recovered);
    forall id | id in store.jobs ensures Cared(store.Contents(), id, now, cutoff, who.instanceId, StringSet(active)) {
      PassCares(db, mid, id, who, lease, clock, now, cutoff, who.instanceId, StringSet(active + recovered));
      if id in recovered {
        assert mid.jobs[id] == Adopted(db.jobs[id], who, now, lease);
      }
    }
  }

  // ---- Pruning ----

  /** Deleting heartbeats older than a cutoff at or before the recovery cutoff changes no recovery decision. */
  lemma PruneKeepsStaleness(db: Db, before: Time, owner: Option<string>, cutoff: Time)
    requires before <= cutoff
    ensures OwnerStale(Prune(db, before).heartbeats, owner, cutoff) <==> OwnerStale(db.heartbeats, owner, cutoff)
    ensures forall r :: NoFreshHeartbeat(Prune(db, before).heartbeats, r, cutoff) <==> NoFreshHeartbeat(db.heartbeats, r, cutoff)
  {
  }

  lemma PruneIsTransparent(db: Db, before: Time, now: Time, cutoff: Time, lease: Time, current: string, active: set<string>,
                           id: string, oldOwner: string, who: Identity)
    requires before <= cutoff
    ensures var pruned := Prune(db, before);
            && ReleaseExpired(pruned, now, cutoff, current, active) == Prune(ReleaseExpired(db, now, cutoff, current, active), before)
            && (forall j :: j in db.jobs ==>
                  (StaleDurable(pruned, db.jobs[j], now, cutoff) <==> StaleDurable(db, db.jobs[j], now, cutoff)))
            && Adopt(pruned, id, oldOwner, who, lease, now, cutoff)
               == (Prune(Adopt(db, id, oldOwner, who, lease, now, cutoff).0, before), Adopt(db, id, oldOwner, who, lease, now, cutoff).1)
            && MarkUnknown(pruned, id, oldOwner, now, cutoff)
               == (Prune(MarkUnknown(db, id, oldOwner, now, cutoff).0, before), MarkUnknown(db, id, oldOwner, now, cutoff).1)
  {
    PruneKeepsStaleness(db, before, None, cutoff);
    forall id | id in db.jobs
      ensures Releasable(Prune(db, before), db.jobs[id], now, cutoff) <==> Releasable(db, db.jobs[id], now, cutoff)
    {
      PruneKeepsStaleness(db, before, db.jobs[id].owner, cutoff);
    }
    assert ReleaseSet(Prune(db, before), now, cutoff, current, active) == ReleaseSet(db, now, cutoff, current, active);
  }
}
