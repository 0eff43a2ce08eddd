/** One runner instance at work on the shared queue. Between any two of its store calls other runners may commit any
    number of steps, and any call may fail, before or after it committed. */
module Session {
  import opened Wrappers
  import opened Model
  import opened Queries
  import opened Cluster
  import opened Protocol
  import opened Holding
  import opened Workflow
  import opened Sqlite

  datatype Fault = NoFault | NotCommitted | CommittedAnyway

  /** Everything a runner does not decide itself, by the number of questions asked so far. */
  datatype Environment = Environment(others: nat -> seq<Step>, faults: nat -> Fault, yes: nat -> bool,
                                     observations: nat -> Observation, records: nat -> LaunchRecord,
                                     numbers: nat -> int, texts: nat -> string)

  /** How a call looks to the program: fine, an ownership loss (IsOwnershipLoss), or any other error. */
  datatype Reply = Fine | Lost | Broken

  function ReplyOf(outcome: Outcome): Reply
  {
    match outcome
    case Done => Fine
    case NotOwner => Lost
    case LostLease => Lost
    case Invalid => Broken
  }

  /** A past state to compare with. */
  class Bookmark {
    ghost var at: System

    constructor (s: System)
      ensures at == s
    {
      at := s;
    }
  }

  /** An earlier moment of the run. */
  class Milestone {
    ghost var trace: seq<Step>

    constructor ()
      ensures trace == []
    {
      trace := [];
    }
  }

  /** A call to GitHub on behalf of a job, or storing what it answered. */
  datatype Deed =
    | ReadIssue(job: string) | RemoveLabels(job: string) | AddLabels(job: string) | PostComment(job: string)
    | StoreIssue(job: string)

  /** The runs whose cancellation the supervisor was asked for, in order. */
  class Signals {
    ghost var cancelled: seq<string>

    constructor ()
      ensures cancelled == []
    {
      cancelled := [];
    }
  }

  /** The calls made so far. */
  class Log {
    ghost var deeds: seq<Deed>

    constructor ()
      ensures deeds == []
    {
      deeds := [];
    }
  }

  /** The finalizations this runner asked for, in order, and those that the store acknowledged to it. */
  class Ledger {
    ghost var asked: seq<string>
    ghost var finals: map<string, Status>

    constructor ()
      ensures asked == [] && finals == map[]
    {
      asked, finals := [], map[];
    }
  }

  /** The heartbeats sent, and whether the heartbeat row was given up. */
  class Pulse {
    ghost var beats: nat
    ghost var stopped: bool

    constructor ()
      ensures beats == 0 && !stopped
    {
      beats, stopped := 0, false;
    }
  }

  class Session {
    const cfg: Config
    const me: Identity
    const env: Environment
    const store: Store
    const mark: Bookmark
    const milestone: Milestone
    const log: Log
    const signals: Signals
    const ledger: Ledger
    const pulse: Pulse
    var s: System
    var asked: nat
    ghost var trace: seq<Step>

    /** The system is what some run of the protocol reaches, one that goes on from the milestone. */
    ghost predicate Running()
      reads this, milestone
    {
      && ValidConfig(cfg) && ValidIdentity(me)
      && (forall n, i :: 0 <= i < |env.others(n)| ==> Actor(env.others(n)[i]) != Some(me.instanceId))
      && s == Reached(cfg, trace) && milestone.trace <= trace
    }

    /** The store agrees with the system; since the bookmark this runner gained no row and no settled row changed. */
    ghost predicate Valid()
      reads this, store, mark, milestone
    {
      Running() && store.Contents() == s.db && NoNewRows(mark.at, s, me.instanceId) && SettledKept(mark.at, s)
    }

    /** This runner has just renewed its lease on the job, and done nothing since. */
    ghost predicate Renewed(id: string)
      reads this
    {
      RenewedBefore(cfg, trace, |trace|, me.instanceId, id)
    }

    /** The row is there with this status. */
    predicate Stored(id: string, status: Status)
      reads this
    {
      id in s.db.jobs && s.db.jobs[id].status == status
    }

    function Unlaunched(): set<string>
      reads this
    {
      Holding.Unlaunched(s, me.instanceId)
    }

    function Owned(): set<string>
      reads this
    {
      Holding.Owned(s, me.instanceId)
    }

    function Mine(): set<string>
      reads this
    {
      Holdings(s, me.instanceId)
    }

    predicate At(id: string, phase: Phase)
      reads this
    {
      InPhase(s, me.instanceId, id, phase)
    }

    predicate Free()
      reads this
    {
      me.instanceId !in s.activity
    }

    constructor (cfg: Config, me: Identity, env: Environment)
      requires ValidConfig(cfg) && ValidIdentity(me)
      requires forall n, i :: 0 <= i < |env.others(n)| ==> Actor(env.others(n)[i]) != Some(me.instanceId)
      ensures Valid() && fresh(store) && fresh(mark) && fresh(milestone) && Mine() == {} && Free()
      ensures fresh(log) && fresh(signals) && fresh(ledger) && fresh(pulse)
      ensures log.deeds == [] && signals.cancelled == [] && ledger.finals == map[] && pulse.beats == 0 && !pulse.stopped
      ensures this.cfg == cfg && this.me == me && this.env == env
    {
      this.cfg, this.me, this.env := cfg, me, env;
      store := new Store();
      mark := new Bookmark(START);
      milestone := new Milestone();
      log := new Log();
      signals := new Signals();
      ledger := new Ledger();
      pulse := new Pulse();
      s, asked, trace := START, 0, [];
    }

    method Question() returns (n: nat)
      modifies this`asked
      ensures n == old(asked) && asked == n + 1
    {
      n := asked;
      asked := asked + 1;
    }

    /** From here on the runner is known to gain no row, until its next claim or adoption. */
    ghost method Remember()
      requires Valid()
      modifies mark
      ensures Valid() && mark.at == s
    {
      mark.at := s;
    }

    /** From here on the run is known to go on from this moment. */
    ghost method Pin()
      requires Valid()
      modifies milestone
      ensures Valid() && milestone.trace == trace
    {
      milestone.trace := trace;
    }

    /** A call made on behalf of a job. The lease on the job must have been renewed just before, with no other step of the
        runner in between. */
    ghost method Note(deed: Deed)
      requires Valid() && Renewed(deed.job)
      modifies log
      ensures Valid() && log.deeds == old(log.deeds) + [deed]
    {
      log.deeds := log.deeds + [deed];
    }

    /** This runner takes a step that the store has already committed. */
    method Take(step: Step)
      requires Running() && store.Contents() == Next(cfg, s, step).db
      requires NoNewRows(mark.at, s, me.instanceId) && SettledKept(mark.at, s)
      requires !step.Claim? && !step.AdoptJob?
      modifies this`s, this`trace
      ensures trace == old(trace) + [step]
      ensures Valid() && s == Next(cfg, old(s), step) && Mine() <= old(Mine())
      ensures old(s).history.launches <= s.history.launches && CountsKept(old(s), s) && TasksKept(old(s), s)
    {
      QuietStep(cfg, trace, mark.at, step, me.instanceId);
      s := Next(cfg, s, step);
      trace := trace + [step];
    }

    /** This runner takes a step that gives it a row. */
    method Gain(step: Step)
      requires Running() && store.Contents() == Next(cfg, s, step).db
      modifies this`s, this`trace, mark
      ensures trace == old(trace) + [step]
      ensures Valid() && s == Next(cfg, old(s), step) && mark.at == s && SettledKept(old(s), s)
    {
      ReachedInv(cfg, trace);
      SettledStays(cfg, s, step);
      OneMoreStep(cfg, trace, step);
      s := Next(cfg, s, step);
      trace := trace + [step];
      mark.at := s;
    }

    /** Other runners' commits, and time passing. */
    method Interfere()
      requires Valid()
      modifies this, store
      ensures old(trace) <= trace
      ensures Valid() && Mine() <= old(Mine()) && Steady(old(s), s, me.instanceId)
      ensures old(s).history.launches <= s.history.launches
      ensures forall id :: old(Renewed(id)) ==> Renewed(id)
    {
      var n := Question();
      ReachedInv(cfg, trace);
      OthersKeepRenewed(cfg, trace, env.others(n), me.instanceId);
      OthersTakeOnly(cfg, s, env.others(n), me.instanceId);
      RunAppends(cfg, START, trace, env.others(n));
      s := Run(cfg, s, env.others(n));
      trace := trace + env.others(n);
      store.Absorb(s.db);
    }

    /** A store call: others come first, and then the call may fail. The invariant holds at this point. */
    method Call() returns (fault: Fault)
      requires Valid()
      modifies this, store
      ensures old(trace) <= trace
      ensures Valid() && Mine() <= old(Mine()) && Steady(old(s), s, me.instanceId)
      ensures Inv(cfg, s) && me.instanceId != ""
      ensures forall id :: old(Renewed(id)) ==> Renewed(id)
      ensures old(s).history.launches <= s.history.launches
    {
      Interfere();
      var n := Question();
      fault := env.faults(n);
      ReachedInv(cfg, trace);
    }

    method Chance() returns (yes: bool)
      requires Valid()
      modifies this`asked
      ensures Valid()
    {
      var n := Question();
      yes := env.yes(n);
    }

    method Number() returns (k: int)
      requires Valid()
      modifies this`asked
      ensures Valid()
    {
      var n := Question();
      k := env.numbers(n);
    }

    method Word() returns (text: string)
      requires Valid()
      modifies this`asked
      ensures Valid()
    {
      var n := Question();
      text := env.texts(n);
    }

    /** A call that changes nothing kept here: a read, a heartbeat, GitHub, a file, the supervisor. */
    method Elsewhere() returns (reply: Reply)
      requires Valid()
      modifies this, store
      ensures old(trace) <= trace
      ensures Valid() && Mine() <= old(Mine()) && Steady(old(s), s, me.instanceId)
      ensures reply != Lost
    {
      var fault := Call();
      reply := if fault == NoFault then Fine else Broken;
    }

    /** Supervisor.Cancel */
    method Cancel(id: string) returns (reply: Reply)
      requires Valid()
      modifies this, store, signals
      ensures Valid() && Mine() <= old(Mine()) && Steady(old(s), s, me.instanceId)
      ensures reply != Lost && signals.cancelled == old(signals.cancelled) + [id]
    {
      signals.cancelled := signals.cancelled + [id];
      reply := Elsewhere();
    }

    /** A call on behalf of a job, under a lease just renewed. */
    method CallOut(deed: Deed) returns (reply: Reply)
      requires Valid() && Renewed(deed.job)
      modifies this, store, log
      ensures Valid() && Mine() <= old(Mine()) && Steady(old(s), s, me.instanceId)
      ensures reply != Lost && log.deeds == old(log.deeds) + [deed]
    {
      var fault := Call();
      Note(deed);
      reply := if fault == NoFault then Fine else Broken;
    }

    /** The heartbeat row of this runner, written now. */
    method CommitBeat(pid: int)
      requires Valid()
      modifies this`s, this`trace, store
      ensures Valid() && Mine() <= old(Mine()) && Steady(old(s), s, me.instanceId)
      ensures me.instanceId in s.db.heartbeats && s.db.heartbeats[me.instanceId] == Heartbeat(me.runnerId, pid, s.clock)
    {
      BeatStep(cfg, s, me, pid, s.clock);
      var outcome := store.HeartbeatRunner(me, pid, s.clock);
      Take(Heartbeats(me, pid, s.clock));
    }

    /** HeartbeatRunner */
    method Beat() returns (reply: Reply)
      requires Valid()
      modifies this, store, pulse
      ensures Valid() && Mine() <= old(Mine()) && Steady(old(s), s, me.instanceId)
      ensures reply != Lost && pulse.beats == old(pulse.beats) + 1 && pulse.stopped == old(pulse.stopped)
      ensures reply == Fine ==> me.instanceId in s.db.heartbeats && s.db.heartbeats[me.instanceId].at == s.clock
    {
      pulse.beats := pulse.beats + 1;
      var fault := Call();
      if fault == NotCommitted {
        return Broken;
      }
      var pid := Number();
      CommitBeat(pid);
      reply := if fault == NoFault then Fine else Broken;
    }

    method UpsertIssue(id: string, issueKey: string) returns (reply: Reply)
      requires Valid() && Renewed(id)
      modifies this, store, log
      ensures log.deeds == old(log.deeds) + [StoreIssue(id)]
      ensures Valid() && Mine() <= old(Mine()) && Steady(old(s), s, me.instanceId)
      ensures reply != Lost && (reply == Fine ==> issueKey in s.db.issues)
    {
      var fault := Call();
      Note(StoreIssue(id));
      if fault == NotCommitted {
        return Broken;
      }
      SnapshotStep(cfg, s, issueKey);
      store.UpsertIssue(issueKey);
      Take(SnapshotIssue(issueKey));
      reply := if fault == NoFault then Fine else Broken;
    }

    /** GetIssueState; an issue that was never stored is an error */
    method GetIssueState(issueKey: string) returns (reply: Reply, generation: int)
      requires Valid()
      modifies this, store
      ensures Valid() && Mine() <= old(Mine()) && Steady(old(s), s, me.instanceId)
      ensures reply != Lost
      ensures reply == Fine ==> issueKey in s.db.issues && generation == s.db.issues[issueKey].generation
    {
      generation := 0;
      reply := Elsewhere();
      if issueKey !in s.db.issues {
        return Broken, 0;
      }
      generation := s.db.issues[issueKey].generation;
    }

    method DeleteHeartbeat()
      requires Valid()
      modifies this, store, pulse
      ensures pulse.stopped
      ensures Valid() && Mine() <= old(Mine()) && Steady(old(s), s, me.instanceId)
    {
      var fault := Call();
      pulse.stopped := true;
      if fault != NotCommitted {
        DropStep(cfg, s, me.instanceId);
        store.DeleteRunnerHeartbeat(me.instanceId);
        Take(DropHeartbeat(me.instanceId));
      }
    }

    method Inspect() returns (reply: Reply, obs: Observation)
      requires Valid()
      modifies this, store
      ensures Valid() && Mine() <= old(Mine()) && Steady(old(s), s, me.instanceId)
      ensures reply != Lost
    {
      reply := Elsewhere();
      var n := Question();
      obs := env.observations(n);
    }

    method ListEligible() returns (reply: Reply, ids: seq<string>)
      requires Valid()
      modifies this, store
      ensures Valid() && Mine() <= old(Mine()) && Steady(old(s), s, me.instanceId)
      ensures reply != Lost && old(trace) <= trace
      ensures forall id :: id in ids <==> Eligible(s.db, id, s.clock)
      ensures forall i, j :: 0 <= i < j < |ids| ==> ids[i] != ids[j]
    {
      reply := Elsewhere();
      ids := store.ListEligibleJobIDs(s.clock);
    }

    /** The rows this runner owns, as they are when the list is read. */
    method ListOwned() returns (reply: Reply, ids: seq<string>, rows: map<string, Job>)
      requires Valid()
      modifies this, store
      ensures Valid() && Mine() <= old(Mine()) && Steady(old(s), s, me.instanceId)
      ensures reply != Lost
      ensures forall id :: id in Mine() ==> id in ids
      ensures Owned() <= StringSet(ids)
      ensures rows == s.db.jobs && forall id :: id in ids ==> id in rows
      ensures forall i, j :: 0 <= i < j < |ids| ==> ids[i] != ids[j]
    {
      reply := Elsewhere();
      ids := store.ListOwnedRunningJobs(me.instanceId);
      rows := store.jobs;
    }

    method ListStale(now: Time, cutoff: Time) returns (reply: Reply, ids: seq<string>, rows: map<string, Job>)
      requires Valid()
      modifies this, store
      ensures Valid() && Mine() <= old(Mine()) && Steady(old(s), s, me.instanceId)
      ensures reply != Lost && rows == s.db.jobs
      ensures forall id :: id in ids <==> id in rows && StaleDurable(s.db, rows[id], now, cutoff)
    {
      reply := Elsewhere();
      ids := store.ListStaleDurableRunningJobs(now, cutoff);
      rows := store.jobs;
    }

    /** The release itself. */
    method CommitRelease(at: Time, cutoff: Time, active: seq<string>)
      requires Valid() && Inv(cfg, s) && at <= s.clock && Owned() <= StringSet(active)
      modifies this`s, this`trace, store`jobs
      ensures Valid() && Mine() <= old(Mine()) && s.activity == old(s).activity
      ensures s.db == Queries.ReleaseExpired(old(s).db, at, cutoff, me.instanceId, StringSet(active))
      ensures trace == old(trace) + [Release(at, cutoff, me.instanceId, StringSet(active))]
      ensures forall id :: id in old(Owned()) ==> id in s.db.jobs && s.db.jobs[id] == old(s).db.jobs[id]
    {
      var step := Release(at, cutoff, me.instanceId, StringSet(active));
      OwnRowsAreKept(cfg, s, me.instanceId, at, cutoff, StringSet(active));
      var updated := store.ReleaseExpiredLeases(at, cutoff, me.instanceId, active);
      Take(step);
    }

    /** Releasing expired rows; the caller names every row it owns, so none of them is touched. `before` is the state that
        the call meets. */
    method ReleaseExpired(at: Time, cutoff: Time, active: seq<string>) returns (reply: Reply, ghost before: System)
      requires Valid() && at <= mark.at.clock && Holding.Owned(mark.at, me.instanceId) <= StringSet(active)
      modifies this, store
      ensures Valid() && Mine() <= old(Mine()) && Steady(old(s), s, me.instanceId)
      ensures reply != Lost
      ensures reply == Fine ==> s.db == Queries.ReleaseExpired(before.db, at, cutoff, me.instanceId, StringSet(active))
      ensures reply == Fine ==>
                |old(trace)| < |trace| && trace[|trace| - 1] == Release(at, cutoff, me.instanceId, StringSet(active))
      ensures forall id :: id in Holding.Owned(before, me.instanceId) ==> id in s.db.jobs && s.db.jobs[id] == before.db.jobs[id]
    {
      var fault := Call();
      before := s;
      if fault == NotCommitted {
        return Broken, s;
      }
      CommitRelease(at, cutoff, active);
      reply := if fault == NoFault then Fine else Broken;
    }

    method PruneHeartbeats(before: Time) returns (reply: Reply)
      requires Valid()
      modifies this, store
      ensures Valid() && Mine() <= old(Mine()) && Steady(old(s), s, me.instanceId)
      ensures reply != Lost
      ensures reply == Fine ==> |old(trace)| < |trace| && trace[|trace| - 1] == Step.PruneHeartbeats(before)
      ensures old(trace) <= trace
    {
      var fault := Call();
      if fault == NotCommitted {
        return Broken;
      }
      PruneStep(cfg, s, before);
      store.PruneStaleRunnerHeartbeats(before);
      Take(Step.PruneHeartbeats(before));
      reply := if fault == NoFault then Fine else Broken;
    }

    /** A committed claim. */
    method RecordClaim(kinds: seq<string>, frontier: Option<set<string>>, id: string)
      requires Running() && Inv(cfg, s) && Free() && |RunningJobs(s.db)| < cfg.maxGlobal
      requires Claimable(s.db, ClaimFilter(kinds, cfg.limits, frontier), id, s.clock)
      requires store.Contents() == ClaimRow(s.db, id, me, s.clock, cfg.lease)
      modifies this`s, this`trace, mark
      ensures Valid()
      ensures id in s.db.jobs && At(id, Fresh) && mark.at == s && SettledKept(old(s), s)
      ensures Mine() <= old(Mine()) + {id} && Owned() <= old(Owned()) + {id} && Unlaunched() <= old(Unlaunched()) + {id}
    {
      ClaimAddsOne(cfg, s, me, kinds, frontier, id);
      Gain(Claim(me, kinds, frontier, id));
    }

    /** Nothing of the frontier is left for a claim to take. */
    ghost predicate Exhausted(kinds: seq<string>, frontier: set<string>)
      reads this
    {
      |RunningJobs(s.db)| >= cfg.maxGlobal
      || forall id :: id in frontier ==> !Claimable(s.db, ClaimFilter(kinds, cfg.limits, Some(frontier)), id, s.clock)
    }

    /** The claim's transaction, within the frontier. */
    method CommitClaimInFrontier(kinds: seq<string>, frontier: set<string>) returns (claimed: Option<string>)
      requires Valid() && Inv(cfg, s) && Free()
      modifies this`s, this`trace, store, mark
      ensures Valid()
      ensures SettledKept(old(mark.at), mark.at)
      ensures claimed.None? ==> s == old(s) && Exhausted(kinds, frontier)
      ensures claimed.Some? ==>
                && claimed.value in frontier && claimed.value in s.db.jobs && At(claimed.value, Fresh)
                && Mine() <= old(Mine()) + {claimed.value}
    {
      var outcome;
      outcome, claimed := store.ClaimNextJobInFrontier(
        me, ClaimFilter(kinds, cfg.limits, None), cfg.maxGlobal, cfg.lease, frontier, s.clock);
      if claimed.Some? {
        RecordClaim(kinds, Some(frontier), claimed.value);
      }
    }

    method ClaimOneInFrontier(kinds: seq<string>, frontier: set<string>) returns (reply: Reply, claimed: Option<string>)
      requires Valid() && Free()
      modifies this, store, mark
      ensures Valid() && reply != Lost
      ensures claimed.None? ==> Free()
      ensures SettledKept(old(mark.at), mark.at)
      ensures claimed.None? && reply == Fine ==> Mine() <= old(Mine()) && Exhausted(kinds, frontier)
      ensures claimed.Some? ==>
                reply == Fine && claimed.value in frontier && claimed.value in s.db.jobs && At(claimed.value, Fresh)
                && Mine() <= old(Mine()) + {claimed.value}
    {
      var fault := Call();
      if fault == NotCommitted {
        return Broken, None;
      }
      claimed := CommitClaimInFrontier(kinds, frontier);
      if fault != NoFault {  // the answer is lost, and the runner turns to something else
        LeaveJob();
        return Broken, None;
      }
      reply := Fine;
    }

    /** Nothing is left for a claim to take. */
    ghost predicate Saturated(kinds: seq<string>)
      reads this
    {
      |RunningJobs(s.db)| >= cfg.maxGlobal
      || forall id :: !Claimable(s.db, ClaimFilter(kinds, cfg.limits, None), id, s.clock)
    }

    /** The claim's transaction. */
    method CommitClaim(kinds: seq<string>) returns (claimed: Option<string>)
      requires Valid() && Inv(cfg, s) && Free()
      modifies this`s, this`trace, store, mark
      ensures Valid()
      ensures claimed.None? ==> s == old(s) && Saturated(kinds)
      ensures claimed.Some? ==>
                claimed.value in s.db.jobs && At(claimed.value, Fresh) && Unlaunched() <= old(Unlaunched()) + {claimed.value}
    {
      var outcome;
      outcome, claimed := store.ClaimNextJob(me, ClaimFilter(kinds, cfg.limits, None), cfg.maxGlobal, cfg.lease, s.clock);
      if claimed.Some? {
        RecordClaim(kinds, None, claimed.value);
      }
    }

    method ClaimOne(kinds: seq<string>) returns (reply: Reply, claimed: Option<string>)
      requires Valid() && Free()
      modifies this, store, mark
      ensures Valid() && reply != Lost
      ensures claimed.None? ==> Free()
      ensures claimed.None? && reply == Fine ==> Unlaunched() <= old(Unlaunched()) && Saturated(kinds)
      ensures claimed.Some? ==>
                reply == Fine && claimed.value in s.db.jobs && At(claimed.value, Fresh)
                && Unlaunched() <= old(Unlaunched()) + {claimed.value}
    {
      Remember();
      var fault := Call();
      if fault == NotCommitted {
        return Broken, None;
      }
      claimed := CommitClaim(kinds);
      if fault != NoFault {
        LeaveJob();
        return Broken, None;
      }
      reply := Fine;
    }

    /** The guarded update of RenewJobLease. */
    method CommitRenewal(id: string) returns (outcome: Outcome)
      requires Valid() && Inv(cfg, s) && me.instanceId != ""
      modifies this`s, this`trace, store
      ensures Valid() && Mine() <= old(Mine()) && Steady(old(s), s, me.instanceId)
      ensures outcome != Invalid && (outcome != Done ==> id !in Mine()) && (outcome == Done ==> id in Mine() && Renewed(id))
      ensures |trace| == |old(trace)| + 1 && RenewalAt(cfg, trace, |old(trace)|, me.instanceId, id)
    {
      RenewTells(cfg, s, me.instanceId, id);
      JustRenewed(cfg, trace, me.instanceId, id);
      outcome := store.RenewJobLease(id, me.instanceId, cfg.lease, s.clock);
      Take(RenewLease(me.instanceId, id));
    }

    /** Whether it succeeded or the row is lost, the run now has this renewal in it; a success leaves the row held. */
    method Renew(id: string) returns (reply: Reply)
      requires Valid()
      modifies this, store
      ensures Valid() && Mine() <= old(Mine()) && Steady(old(s), s, me.instanceId)
      ensures reply == Lost ==> id !in Mine()
      ensures reply == Fine ==> id in Mine() && Renewed(id)
      ensures reply != Broken ==> |old(trace)| < |trace| && RenewalAt(cfg, trace, |trace| - 1, me.instanceId, id)
    {
      var fault := Call();
      if fault == NotCommitted {
        return Broken;
      }
      var outcome := CommitRenewal(id);
      reply := if fault == NoFault then ReplyOf(outcome) else Broken;
    }

    /** The transaction of FinalizeJobOwned. */
    method CommitFinal(id: string, f: JobFinalize) returns (outcome: Outcome)
      requires Valid() && Inv(cfg, s) && me.instanceId != ""
      modifies this`s, this`trace, store
      ensures Valid() && Mine() <= old(Mine()) && Steady(old(s), s, me.instanceId)
      ensures outcome != Invalid && id !in Mine()
      ensures outcome == Done ==> id in s.db.jobs && ShowsOutcome(s.db.jobs[id], f)
      ensures outcome == Done ==>
                (id in s.history.reversed <==> f.workStarted == Some(false) && s.db.jobs[id].attempt.scope.Some?)
    {
      FinalizeTells(cfg, s, me.instanceId, id, f);
      if Finalize(s.db, id, me.instanceId, f, s.clock).1 == Done {
        FinalizeReversal(cfg, trace, me.instanceId, id, f);
      }
      outcome := store.FinalizeJobOwned(id, me.instanceId, f, s.clock);
      Take(FinalizeJob(me.instanceId, id, f));
    }

    method TryFinal(id: string, f: JobFinalize) returns (reply: Reply)
      requires Valid()
      modifies this, store
      ensures Valid() && Mine() <= old(Mine()) && Steady(old(s), s, me.instanceId)
      ensures reply != Broken ==> id !in Mine()
      ensures reply == Fine ==> id in s.db.jobs && ShowsOutcome(s.db.jobs[id], f)
      ensures reply == Fine ==>
                (id in s.history.reversed <==> f.workStarted == Some(false) && s.db.jobs[id].attempt.scope.Some?)
    {
      var fault := Call();
      if fault == NotCommitted {
        return Broken;
      }
      var outcome := CommitFinal(id, f);
      reply := if fault == NoFault then ReplyOf(outcome) else Broken;
    }

    /** FinalizeJobOwned; what was asked for and what was acknowledged is recorded. */
    method FinalizeOwned(id: string, f: JobFinalize) returns (reply: Reply)
      requires Valid()
      modifies this, store, ledger
      ensures Valid() && Mine() <= old(Mine()) && Steady(old(s), s, me.instanceId)
      ensures ledger.asked == old(ledger.asked) + [id]
      ensures ledger.finals == if reply == Fine then old(ledger.finals)[id := f.status] else old(ledger.finals)
      ensures reply != Broken ==> id !in Mine()
      ensures reply == Fine ==> id in s.db.jobs && ShowsOutcome(s.db.jobs[id], f)
      ensures reply == Fine ==>
                (id in s.history.reversed <==> f.workStarted == Some(false) && s.db.jobs[id].attempt.scope.Some?)
    {
      reply := TryFinal(id, f);
      ledger.asked := ledger.asked + [id];
      if reply == Fine {
        ledger.finals := ledger.finals[id := f.status];
      }
    }

    method CountAttempts(id: string, generation: int, scope: string) returns (reply: Reply, count: nat)
      requires Valid() && At(id, Fresh)
      modifies this, store
      ensures Valid() && Mine() <= old(Mine()) && TasksKept(old(s), s)
      ensures reply == Lost ==> id !in Mine()
      ensures reply == Fine ==>
                id in s.db.jobs && At(id, if count <= MaxAttempts(cfg, s.db.jobs[id].task.routeName) then Granted else Refused)
                && s.db.jobs[id].attempt == Attempt(count, generation, Some(if Blank(scope) then "legacy" else scope))
    {
      var fault := Call();
      count := 0;
      if fault == NotCommitted {
        return Broken, 0;
      }
      CountTells(cfg, s, me.instanceId, id, generation, scope);
      var step := CountAttempt(me.instanceId, id, generation, scope);
      var outcome;
      outcome, count := store.IncrementAttemptsForJob(id, me.instanceId, CounterOf(s.db, id, generation, scope), s.clock);
      if outcome == Done {
        CountKeepsTask(cfg, s, step);
      }
      Take(step);
      reply := if fault == NoFault then ReplyOf(outcome) else Broken;
    }

    method CountTransitions(id: string, issueKey: string) returns (reply: Reply, count: nat)
      requires Valid()
      modifies this, store
      ensures Valid() && Mine() <= old(Mine()) && Steady(old(s), s, me.instanceId)
      ensures reply == Lost ==> id !in Mine()
      ensures reply == Fine ==> issueKey in s.db.issues && s.db.issues[issueKey].transitions == count
    {
      var fault := Call();
      if fault == NotCommitted {
        return Broken, 0;
      }
      TransitionTells(cfg, s, me.instanceId, id, issueKey);
      var outcome;
      outcome, count := store.IncrementTransitionsForJob(id, me.instanceId, issueKey, s.clock);
      Take(CountTransition(me.instanceId, id, issueKey));
      reply := if fault == NoFault then ReplyOf(outcome) else Broken;
    }

    /** The guarded update of PersistLaunchSpecOwned. */
    method CommitSpec(id: string, spec: LaunchSpecRecord) returns (outcome: Outcome)
      requires Valid() && Inv(cfg, s) && me.instanceId != "" && (At(id, Granted) || (!cfg.github && At(id, Fresh)))
      modifies this`s, this`trace, store
      ensures Valid() && Mine() <= old(Mine())
      ensures outcome in {NotOwner, LostLease} ==> id !in Mine()
      ensures outcome == Done ==> At(id, SpecSaved(spec.token)) && id in s.db.jobs && ShowsSpec(s.db.jobs[id], spec)
    {
      SaveSpecTells(cfg, s, me.instanceId, id, spec);
      outcome := store.PersistLaunchSpecOwned(id, me.instanceId, spec, s.clock);
      Take(SaveSpec(me.instanceId, id, spec));
    }

    method PersistSpec(id: string, spec: LaunchSpecRecord) returns (reply: Reply)
      requires Valid() && (At(id, Granted) || (!cfg.github && At(id, Fresh)))
      modifies this, store
      ensures Valid() && Mine() <= old(Mine())
      ensures reply == Lost ==> id !in Mine()
      ensures reply == Fine ==> At(id, SpecSaved(spec.token)) && id in s.db.jobs && ShowsSpec(s.db.jobs[id], spec)
    {
      var fault := Call();
      if fault == NotCommitted {
        return Broken;
      }
      var outcome := CommitSpec(id, spec);
      reply := if fault == NoFault then ReplyOf(outcome) else Broken;
    }

    method MarkLaunching(id: string, token: string) returns (reply: Reply)
      requires Valid() && At(id, SpecSaved(token))
      modifies this, store
      ensures Valid() && Mine() <= old(Mine())
      ensures reply == Lost ==> id !in Mine()
      ensures reply == Fine ==> At(id, Committed(token))
    {
      var fault := Call();
      if fault == NotCommitted {
        return Broken;
      }
      CommitTells(cfg, s, me.instanceId, id, token);
      var outcome := store.MarkJobLaunchingOwned(id, me.instanceId, token, s.clock);
      Take(CommitLaunch(me.instanceId));
      reply := if fault == NoFault then ReplyOf(outcome) else Broken;
    }

    /** The step of Supervisor.Launch. */
    method TakeLaunch(id: string, token: string)
      requires Valid() && At(id, Committed(token))
      modifies this`s, this`trace
      ensures Valid() && Mine() <= old(Mine())
      ensures At(id, Launched(token)) && s.history.launches[id] == 1
    {
      LaunchStep(cfg, s, me.instanceId, id, token);
      Take(Step.Launch(me.instanceId));
      AtMostOneLaunch(cfg, trace, id);
    }

    /** Supervisor.Launch: it may fail, and it may have started the process all the same. */
    method CallLaunch(id: string, token: string) returns (reply: Reply, record: LaunchRecord)
      requires Valid() && At(id, Committed(token))
      modifies this, store
      ensures Valid() && Mine() <= old(Mine())
      ensures reply != Lost && At(id, Launched(token)) && s.history.launches[id] == 1
    {
      var fault := Call();
      TakeLaunch(id, token);
      var n := Question();
      record := env.records(n);
      reply := if fault == NoFault then Fine else Broken;
    }

    /** The guarded update of PersistLaunchRecordOwned. */
    method CommitRecord(id: string, record: LaunchRecord) returns (outcome: Outcome)
      requires Valid() && Inv(cfg, s) && me.instanceId != "" && At(id, Launched(record.token))
      modifies this`s, this`trace, store
      ensures Valid() && Mine() <= old(Mine())
      ensures outcome in {NotOwner, LostLease} ==> id !in Mine()
      ensures outcome == Done ==> id in s.db.jobs && ShowsRecord(s.db.jobs[id], record)
      ensures old(s).history.launches <= s.history.launches
    {
      RecordTells(cfg, s, me.instanceId, id, record);
      outcome := store.PersistLaunchRecordOwned(id, me.instanceId, record, s.clock);
      if outcome == Done {
        RecordStores(cfg, s, me.instanceId, id, record);
      }
      Take(SaveRecord(me.instanceId, record));
    }

    method PersistRecord(id: string, record: LaunchRecord) returns (reply: Reply)
      requires Valid() && At(id, Launched(record.token))
      modifies this, store
      ensures Valid() && Mine() <= old(Mine())
      ensures reply == Lost ==> id !in Mine()
      ensures reply == Fine ==> id in s.db.jobs && ShowsRecord(s.db.jobs[id], record)
      ensures old(s).history.launches <= s.history.launches
    {
      var fault := Call();
      if fault == NotCommitted {
        return Broken;
      }
      var outcome := CommitRecord(id, record);
      reply := if fault == NoFault then ReplyOf(outcome) else Broken;
    }

    /** The runner turns from this job to something else. */
    method LeaveJob()
      requires Valid()
      modifies this`s, this`trace
      ensures Valid() && Mine() <= old(Mine()) && Free() && s.history == old(s).history && s.db == old(s).db
    {
      Take(Leave(me.instanceId));
    }
  }
}
