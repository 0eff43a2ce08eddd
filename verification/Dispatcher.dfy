/** internal/dispatcher/dispatcher.go: a bounded wave that claims from a fixed frontier and supervises what it launched. */
module Dispatcher {
  import opened Wrappers
  import opened Model
  import Queries
  import opened Cluster
  import opened Protocol
  import opened Holding
  import opened Workflow
  import opened Session
  import opened Launching
  import opened Lifecycle

  datatype Result = Result(claimed: nat, succeeded: nat, failed: nat, skipped: nat, dead: nat)

  function Counted(r: Result): nat
  {
    r.succeeded + r.failed + r.skipped + r.dead
  }

  /** The jobs recorded as ended with this status. */
  function Ended(ended: map<string, Status>, status: Status): set<string>
  {
    set id | id in ended && ended[id] == status
  }

  lemma EndedOneMore(ended: map<string, Status>, id: string, status: Status, q: Status)
    requires id !in ended
    ensures |Ended(ended[id := status], q)| == |Ended(ended, q)| + (if q == status then 1 else 0)
  {
    assert Ended(ended[id := status], q) == Ended(ended, q) + (if q == status then {id} else {});
  }

  function CountStatus(r: Result, status: Status): (r': Result)
    ensures Counted(r') == Counted(r) + 1 && r'.claimed == r.claimed
  {
    match status
    case Succeeded => r.(succeeded := r.succeeded + 1)
    case Skipped => r.(skipped := r.skipped + 1)
    case Dead => r.(dead := r.dead + 1)
    case _ => r.(failed := r.failed + 1)
  }

  /** Every job of the initial frontier is remaining or was claimed; every claimed job is counted once, active, or
      dropped; capacity holds; nothing active or counted is claimed again. */
  predicate Accounts(r: Result, active: set<string>, counted: set<string>, frontier: set<string>, cap: nat, initial: nat)
  {
    && r.claimed + |frontier| == initial
    && Counted(r) + |active| <= r.claimed
    && |active| <= cap
    && active !! frontier && counted !! active && counted !! frontier
  }

  /** At most this job was counted, and only if it may be. */
  predicate CountedAtMost(r: Result, ended: map<string, Status>, r': Result, ended': map<string, Status>, id: string, may: bool)
  {
    && r'.claimed == r.claimed
    && ended'.Keys <= ended.Keys + (if may then {id} else {})
    && Counted(r') <= Counted(r) + (if may then 1 else 0)
  }

  lemma AccountsAfterClaim(r: Result, active: set<string>, counted: set<string>, frontier: set<string>, cap: nat, initial: nat,
                           r': Result, id: string, launched: bool, counted': set<string>)
    requires Accounts(r, active, counted, frontier, cap, initial) && id in frontier && |active| < cap
    requires r'.claimed == r.claimed + 1 && Counted(r') <= Counted(r) + (if launched then 0 else 1)
    requires counted' <= counted + (if launched then {} else {id})
    ensures Accounts(r', if launched then active + {id} else active, counted', frontier - {id}, cap, initial)
  {
  }

  lemma AccountsAfterReap(r: Result, active: set<string>, counted: set<string>, frontier: set<string>, cap: nat, initial: nat,
                          r': Result, id: string, keep: bool, counted': set<string>)
    requires Accounts(r, active, counted, frontier, cap, initial) && id in active
    requires r'.claimed == r.claimed && Counted(r') <= Counted(r) + (if keep then 0 else 1)
    requires counted' <= counted + (if keep then {} else {id})
    ensures Accounts(r', if keep then active else active - {id}, counted', frontier, cap, initial)
  {
  }

  /** The counters are the numbers of distinct jobs that ended, and each is in the table with the status counted. */
  ghost predicate Tally(jobs: map<string, Job>, ended: map<string, Status>, r: Result)
  {
    && r.succeeded == |Ended(ended, Succeeded)| && r.failed == |Ended(ended, Failed)|
    && r.skipped == |Ended(ended, Skipped)| && r.dead == |Ended(ended, Dead)|
    && forall id :: id in ended ==>
         id in jobs && jobs[id].status == ended[id] && ended[id] in {Succeeded, Failed, Skipped, Dead}
  }

  lemma TallyOneMore(jobs: map<string, Job>, ended: map<string, Status>, r: Result, id: string, status: TerminalStatus)
    requires Tally(jobs, ended, r) && id !in ended && id in jobs && jobs[id].status == status && status != Cancelled
    ensures Tally(jobs, ended[id := status], CountStatus(r, status))
  {
    EndedOneMore(ended, id, status, Succeeded);
    EndedOneMore(ended, id, status, Failed);
    EndedOneMore(ended, id, status, Skipped);
    EndedOneMore(ended, id, status, Dead);
  }

  /** The acknowledged finalizations that are counted. */
  function Uncancelled(finals: map<string, Status>): map<string, Status>
  {
    map id | id in finals && finals[id] != Cancelled :: finals[id]
  }

  lemma OneMoreFinal(finals: map<string, Status>, id: string, status: Status)
    requires id !in Uncancelled(finals)
    ensures Uncancelled(finals[id := status]) == if status == Cancelled then Uncancelled(finals) else Uncancelled(finals)[id := status]
  {
  }

  lemma TallyLater(s: System, s': System, ended: map<string, Status>, r: Result)
    requires Tally(s.db.jobs, ended, r) && SettledKept(s, s')
    ensures Tally(s'.db.jobs, ended, r)
  {
  }

  class Wave {
    const c: Session
    const kinds: seq<string>
    const routes: set<string>
    const settings: Settings
    var result: Result
    var active: set<string>
    ghost var ended: map<string, Status>

    constructor (c: Session, kinds: seq<string>, routes: set<string>, settings: Settings)
      requires c.Valid()
      ensures this.c == c && active == {} && result == Result(0, 0, 0, 0, 0) && ended == map[]
    {
      this.c, this.kinds, this.routes, this.settings := c, kinds, routes, settings;
      result, active, ended := Result(0, 0, 0, 0, 0), {}, map[];
    }

    ghost predicate Balanced(frontier: set<string>, initial: nat)
      reads this
    {
      Accounts(result, active, ended.Keys, frontier, c.cfg.maxGlobal, initial)
    }

    /** The counters are true of the store as bookmarked, and so for good. */
    ghost predicate Truthful()
      reads this, c.mark
    {
      Tally(c.mark.at.db.jobs, ended, result)
    }

    /** The counted jobs are exactly those whose finalization the store acknowledged, cancellations apart. */
    ghost predicate AllCounted()
      reads this`ended, c.ledger
    {
      ended == Uncancelled(c.ledger.finals)
    }

    ghost predicate Ready()
      reads this, c, c.store, c.mark, c.milestone
    {
      c.Valid() && c.Free()
    }

    /** A finalized job is counted under the status it is stored with. */
    method CountEnd(id: string, status: TerminalStatus)
      requires c.Valid() && Truthful() && c.Stored(id, status) && id !in ended && status != Cancelled
      modifies this`result, this`ended, c.mark
      ensures c.Valid() && Truthful() && ended == old(ended)[id := status] && result == CountStatus(old(result), status)
    {
      TallyLater(c.mark.at, c.s, ended, result);
      c.Remember();
      TallyOneMore(c.s.db.jobs, ended, result, id, status);
      ended := ended[id := status];
      result := CountStatus(result, status);
    }

    /** countFinalized: a cancellation is terminal but not counted. */
    method CountFinalized(id: string, status: TerminalStatus)
      requires c.Valid() && Truthful() && c.Stored(id, status) && id !in ended
      modifies this`result, this`ended, c.mark
      ensures c.Valid() && Truthful() && result.claimed == old(result).claimed
      ensures ended == if status == Cancelled then old(ended) else old(ended)[id := status]
      ensures Counted(result) == Counted(old(result)) + (if status == Cancelled then 0 else 1)
    {
      if status != Cancelled {
        CountEnd(id, status);
      }
    }

    method CountPrepare(id: string, p: Prepared)
      requires c.Valid() && Truthful() && id !in ended
      requires p.finalized ==> p.status in {Failed, Skipped, Dead} && c.Stored(id, p.status)
      modifies this`result, this`ended, c.mark
      ensures c.Valid() && Truthful() && result.claimed == old(result).claimed
      ensures ended == if p.finalized then old(ended)[id := p.status] else old(ended)
      ensures Counted(result) == Counted(old(result)) + (if p.finalized then 1 else 0)
    {
      if p.finalized {
        CountEnd(id, p.status);
      }
    }

    /** A claimed job whose route is not configured. */
    method EndUnrouted(id: string) returns (reply: Reply)
      requires c.Valid() && Truthful() && AllCounted() && id !in ended
      modifies this`result, this`ended, c, c.store, c.mark, c.ledger
      ensures Ready() && Truthful() && AllCounted() && c.Mine() <= old(c.Mine()) && reply != Lost
      ensures reply == Fine ==> id !in c.Mine()
      ensures CountedAtMost(old(result), old(ended), result, ended, id, true)
    {
      var finalized;
      OneMoreFinal(c.ledger.finals, id, Failed);
      reply, finalized := FinalizeClaimed(c, id, Failed, "route not found");
      c.LeaveJob();
      if finalized {
        CountEnd(id, Failed);
      }
    }

    /** A claimed job of a known route, up to its launch; `go` when it may be launched. */
    method PrepareAndCount(id: string) returns (reply: Reply, go: bool)
      requires c.Valid() && Truthful() && AllCounted() && id in c.s.db.jobs && c.At(id, Fresh) && id !in ended
      modifies this`result, this`ended, c, c.store, c.mark, c.log, c.ledger
      ensures c.Valid() && Truthful() && c.Mine() <= old(c.Mine()) && reply != Lost && (reply == Broken ==> !go)
      ensures reply == Fine ==> AllCounted() && (!go ==> id !in c.Mine())
      ensures if go then c.At(id, Granted) || (!c.cfg.github && c.At(id, Fresh)) else c.Free()
      ensures CountedAtMost(old(result), old(ended), result, ended, id, !go)
    {
      var p;
      ghost var f;
      ghost var finals := c.ledger.finals;
      reply, p, f := PrepareClaimedWrapperLaunch(c, id, settings);
      go := p.outcome == PrepareLaunch;
      if reply == Fine {
        OneMoreFinal(finals, id, p.status);
        CountPrepare(id, p);
      }
    }

    /** LaunchClaimedWrapper for a prepared job; an ownership loss is no error. */
    method LaunchPrepared(id: string) returns (reply: Reply, launched: bool)
      requires c.Valid() && (c.At(id, Granted) || (!c.cfg.github && c.At(id, Fresh)))
      modifies c, c.store, c.signals, c.ledger
      ensures Ready() && c.Mine() <= old(c.Mine()) && reply != Lost
      ensures reply == Fine ==> c.ledger.finals == old(c.ledger.finals) && (!launched ==> id !in c.Mine())
      ensures launched ==> reply == Fine && id in c.s.db.jobs && Supervised(c.s.db.jobs[id])
    {
      reply := LaunchClaimedWrapper(c, id);
      launched := reply == Fine;
      if reply == Lost {
        reply := Fine;
      }
    }

    method PrepareAndLaunch(id: string) returns (reply: Reply, launched: bool)
      requires c.Valid() && Truthful() && AllCounted() && id in c.s.db.jobs && c.At(id, Fresh) && id !in ended
      modifies this`result, this`ended, c, c.store, c.mark, c.log, c.signals, c.ledger
      ensures Ready() && Truthful() && c.Mine() <= old(c.Mine()) && reply != Lost
      ensures reply == Fine ==> AllCounted() && (!launched ==> id !in c.Mine())
      ensures launched ==> id in c.s.db.jobs && Supervised(c.s.db.jobs[id])
      ensures CountedAtMost(old(result), old(ended), result, ended, id, !launched)
    {
      var go;
      launched := false;
      reply, go := PrepareAndCount(id);
      if go {
        reply, launched := LaunchPrepared(id);
      }
    }

    /** What becomes of one claimed job. */
    method Start(id: string) returns (reply: Reply, launched: bool)
      requires c.Valid() && Truthful() && AllCounted() && id in c.s.db.jobs && c.At(id, Fresh) && id !in ended
      modifies this`result, this`ended, c, c.store, c.mark, c.log, c.signals, c.ledger
      ensures Ready() && Truthful() && c.Mine() <= old(c.Mine()) && reply != Lost
      ensures reply == Fine ==> AllCounted() && (!launched ==> id !in c.Mine())
      ensures launched ==> id in c.s.db.jobs && Supervised(c.s.db.jobs[id])
      ensures CountedAtMost(old(result), old(ended), result, ended, id, !launched)
    {
      launched := false;
      if c.s.db.jobs[id].task.routeName !in routes {
        reply := EndUnrouted(id);
      } else {
        reply, launched := PrepareAndLaunch(id);
      }
    }

    /** Claim one job of the frontier and start it. */
    method ClaimAndStart(frontier: set<string>) returns (reply: Reply, claimed: Option<string>, launched: bool)
      requires Ready() && Truthful() && AllCounted() && ended.Keys !! frontier
      modifies this`result, this`ended, c, c.store, c.mark, c.log, c.signals, c.ledger
      ensures Ready() && Truthful() && reply != Lost && (reply == Fine ==> AllCounted())
      ensures claimed.None? ==>
                && !launched && result == old(result) && ended == old(ended)
                && (reply == Fine ==> c.Mine() <= old(c.Mine()) && c.Exhausted(kinds, frontier))
      ensures claimed.Some? ==>
                && claimed.value in frontier && result.claimed == old(result).claimed + 1
                && ended.Keys <= old(ended).Keys + (if launched then {} else {claimed.value})
                && Counted(result) <= Counted(old(result)) + (if launched then 0 else 1)
                && (reply == Fine ==> c.Mine() <= old(c.Mine()) + (if launched then {claimed.value} else {}))
    {
      launched := false;
      ghost var before := c.mark.at;
      reply, claimed := c.ClaimOneInFrontier(kinds, frontier);
      TallyLater(before, c.mark.at, ended, result);
      if claimed.Some? {
        result := result.(claimed := result.claimed + 1);
        reply, launched := Start(claimed.value);
      }
    }

    /** One turn of refill; no more turns when nothing was claimed. */
    method RefillStep(frontier: set<string>, ghost initial: nat) returns (reply: Reply, rest: set<string>, more: bool)
      requires Ready() && Truthful() && AllCounted() && Balanced(frontier, initial) && |active| < c.cfg.maxGlobal
      modifies this`result, this`active, this`ended, c, c.store, c.mark, c.log, c.signals, c.ledger
      ensures Ready() && Truthful() && Balanced(rest, initial) && reply != Lost
      ensures reply == Fine ==> AllCounted() && (!more ==> c.Exhausted(kinds, rest))
      ensures if more then rest < frontier else rest == frontier
      ensures reply == Fine && old(c.Mine()) <= old(active) ==> c.Mine() <= active
    {
      var claimed, launched;
      ghost var r, counted := result, ended.Keys;
      rest := frontier;
      reply, claimed, launched := ClaimAndStart(rest);
      more := claimed.Some?;
      if more {
        AccountsAfterClaim(r, active, counted, rest, c.cfg.maxGlobal, initial, result, claimed.value, launched, ended.Keys);
        rest := rest - {claimed.value};
        if launched {
          active := active + {claimed.value};
        }
      }
    }

    /** refill: without an error it stops only when it is full, or nothing of the frontier is left to claim. */
    method Refill(frontier: set<string>, ghost initial: nat) returns (reply: Reply, rest: set<string>)
      requires Ready() && Truthful() && AllCounted() && Balanced(frontier, initial)
      modifies this`result, this`active, this`ended, c, c.store, c.mark, c.log, c.signals, c.ledger
      ensures Ready() && Truthful() && Balanced(rest, initial) && rest <= frontier && reply != Lost
      ensures reply == Fine ==> AllCounted() && (|active| >= c.cfg.maxGlobal || rest == {} || c.Exhausted(kinds, rest))
      ensures reply == Fine && old(c.Mine()) <= old(active) ==> c.Mine() <= active
    {
      rest := frontier;
      while |active| < c.cfg.maxGlobal && rest != {}
        invariant Ready() && Truthful() && AllCounted() && Balanced(rest, initial) && rest <= frontier
        invariant old(c.Mine()) <= old(active) ==> c.Mine() <= active
        decreases rest
      {
        var more;
        reply, rest, more := RefillStep(rest, initial);
        if reply != Fine || !more {
          return;
        }
      }
      reply := Fine;
    }

    /** A terminal observation of an active job. */
    method Finish(id: string, obs: Observation, routeKnown: bool) returns (reply: Reply)
      requires Ready() && Truthful() && AllCounted() && id !in ended
      requires obs.state in {RunExited, RunFailed, RunTimedOut, RunCancelled}
      modifies this`result, this`ended, c, c.store, c.mark, c.log, c.ledger
      ensures Ready() && c.Mine() <= old(c.Mine()) && reply != Lost
      ensures Truthful() && AllCounted() && CountedAtMost(old(result), old(ended), result, ended, id, reply == Fine)
      ensures reply == Fine ==> id !in c.Mine()
    {
      var finalized;
      ghost var e;
      ghost var finals := c.ledger.finals;
      reply, finalized, e := FinalizeWithLifecycle(c, id, obs, routeKnown, settings);
      OneMoreFinal(finals, id, finalized.status);
      if reply == Fine && finalized.finalized {
        CountFinalized(id, finalized.status);
      }
    }

    /** A run that has not ended is renewed; when its row is lost it stays active if it is unknown and is dropped if it was
        running. */
    method RenewActive(id: string, obs: Observation) returns (reply: Reply, keep: bool)
      requires Ready() && obs.state in {RunStarting, RunRunning, RunUnknown}
      modifies c, c.store
      ensures Ready() && c.Mine() <= old(c.Mine()) && reply != Lost
      ensures reply == Broken ==> keep
      ensures reply == Fine ==> RenewedSince(c.cfg, c.trace, |c.milestone.trace|, c.me.instanceId, id)
      ensures reply == Fine && !keep ==> obs.state != RunUnknown && id !in c.Mine()
      ensures reply == Fine && keep ==> obs.state == RunUnknown || id in c.Mine()
    {
      keep := true;
      reply := c.Renew(id);
      if reply == Lost {
        reply, keep := Fine, ObservationToDecision(obs) == DecideUnknown;
      }
    }

    /** InspectDurableJob: a row without launch evidence is unknown. */
    method Observe(job: Job) returns (reply: Reply, obs: Observation)
      requires Ready()
      modifies c, c.store
      ensures Ready() && c.Mine() <= old(c.Mine()) && reply != Lost
      ensures !HasLaunchRecord(job) ==> reply == Fine && obs.state == RunUnknown
    {
      if !HasLaunchRecord(job) {
        return Fine, Observation(RunUnknown, None, "", 0, "", "", "");
      }
      reply, obs := c.Inspect();
    }

    /** A run that has ended is settled, and any other is renewed. */
    method SettleOrRenew(id: string, obs: Observation, routeKnown: bool) returns (reply: Reply, keep: bool)
      requires Ready() && Truthful() && AllCounted() && id !in ended
      modifies this`result, this`ended, c, c.store, c.mark, c.log, c.ledger
      ensures Ready() && c.Mine() <= old(c.Mine()) && reply != Lost
      ensures Truthful() && AllCounted() && CountedAtMost(old(result), old(ended), result, ended, id, !keep)
      ensures reply == Broken ==> keep
      ensures reply == Fine && !keep ==> id !in c.Mine()
      ensures reply == Fine && obs.state in {RunExited, RunFailed, RunTimedOut, RunCancelled} ==> !keep
      ensures reply == Fine && obs.state == RunUnknown ==> keep
      ensures reply == Fine && keep ==> obs.state == RunUnknown || id in c.Mine()
      ensures reply == Fine && keep ==> RenewedSince(c.cfg, c.trace, |c.milestone.trace|, c.me.instanceId, id)
    {
      if StatusForObservation(obs).Some? {
        reply := Finish(id, obs, routeKnown);
        keep := reply == Broken;
      } else {
        reply, keep := RenewActive(id, obs);
      }
    }

    /** What becomes of one active job; `job` is its row as just listed. */
    method ReapOne(id: string, job: Job) returns (reply: Reply, keep: bool, ghost seen: Observation)
      requires Ready() && Truthful() && AllCounted() && id !in ended
      modifies this`result, this`ended, c, c.store, c.mark, c.log, c.ledger
      ensures Ready() && c.Mine() <= old(c.Mine()) && reply != Lost
      ensures Truthful() && AllCounted() && CountedAtMost(old(result), old(ended), result, ended, id, !keep)
      ensures reply == Broken ==> keep
      ensures reply == Fine && !keep ==> id !in c.Mine()
      ensures !HasLaunchRecord(job) ==> seen.state == RunUnknown
      ensures reply == Fine && seen.state in {RunExited, RunFailed, RunTimedOut, RunCancelled} ==> !keep
      ensures reply == Fine && seen.state == RunUnknown ==> keep
      ensures reply == Fine && keep ==> seen.state == RunUnknown || id in c.Mine()
      ensures reply == Fine && keep ==> RenewedSince(c.cfg, c.trace, |c.milestone.trace|, c.me.instanceId, id)
    {
      var obs;
      reply, obs := Observe(job);
      seen, keep := obs, true;
      if reply == Fine {
        reply, keep := SettleOrRenew(id, obs, job.task.routeName in routes);
      }
    }

    /** One active job that is listed, and what it leaves of the wave. */
    method ReapListed(id: string, frontier: set<string>, ghost initial: nat, rows: map<string, Job>) returns (reply: Reply)
      requires Ready() && Truthful() && AllCounted() && Balanced(frontier, initial) && id in active && id in rows
      modifies this`result, this`active, this`ended, c, c.store, c.mark, c.milestone, c.log, c.ledger
      ensures Ready() && Truthful() && AllCounted() && Balanced(frontier, initial) && reply != Lost
      ensures c.Mine() <= old(c.Mine()) && old(active) - {id} <= active <= old(active) && old(c.trace) <= c.trace
      ensures reply == Fine ==> active == old(active) || id !in c.Mine()
      ensures reply == Fine && id in active ==> RenewedSince(c.cfg, c.trace, |old(c.trace)|, c.me.instanceId, id)
    {
      var keep;
      ghost var r, counted, seen := result, ended.Keys, Observation(RunUnknown, None, "", 0, "", "", "");
      c.Pin();
      reply, keep, seen := ReapOne(id, rows[id]);
      AccountsAfterReap(r, active, counted, frontier, c.cfg.maxGlobal, initial, result, id, keep, ended.Keys);
      if !keep {
        active := active - {id};
      }
    }

    /** One active job and what it leaves of the wave. */
    method ReapStep(id: string, frontier: set<string>, ghost initial: nat, rows: map<string, Job>) returns (reply: Reply)
      requires Ready() && Truthful() && AllCounted() && Balanced(frontier, initial) && id in active && c.Mine() <= rows.Keys
      modifies this`result, this`active, this`ended, c, c.store, c.mark, c.milestone, c.log, c.ledger
      ensures Ready() && Truthful() && AllCounted() && Balanced(frontier, initial) && reply != Lost
      ensures c.Mine() <= old(c.Mine()) && old(active) - {id} <= active <= old(active) && old(c.trace) <= c.trace
      ensures reply == Fine ==> active == old(active) || id !in c.Mine()
      ensures reply == Fine && id in active ==> RenewedSince(c.cfg, c.trace, |old(c.trace)|, c.me.instanceId, id)
    {
      if id in rows {
        reply := ReapListed(id, frontier, initial, rows);
      } else {
        DropActive(id, frontier, initial);
        reply := Fine;
      }
    }

    /** Every active job, against the rows just listed. */
    method ReapEach(frontier: set<string>, ghost initial: nat, rows: map<string, Job>) returns (reply: Reply)
      requires Ready() && Truthful() && AllCounted() && Balanced(frontier, initial) && c.Mine() <= rows.Keys
      modifies this`result, this`active, this`ended, c, c.store, c.mark, c.milestone, c.log, c.ledger
      ensures Ready() && Truthful() && AllCounted() && Balanced(frontier, initial) && reply != Lost
      ensures reply == Fine && old(c.Mine()) <= old(active) ==> c.Mine() <= active
      ensures old(c.trace) <= c.trace
      ensures reply == Fine ==> AllRenewed(c.cfg, c.trace, active, |old(c.trace)|, c.me.instanceId)
    {
      var todo := active;
      while todo != {}
        invariant todo <= active && old(c.trace) <= c.trace
        invariant Ready() && Truthful() && AllCounted() && Balanced(frontier, initial)
        invariant c.Mine() <= rows.Keys
        invariant old(c.Mine()) <= old(active) ==> c.Mine() <= active
        invariant AllRenewed(c.cfg, c.trace, active - todo, |old(c.trace)|, c.me.instanceId)
        decreases todo
      {
        var id :| id in todo;
        ghost var before, renewed := c.trace, active - todo;
        todo := todo - {id};
        reply := ReapStep(id, frontier, initial, rows);
        if reply != Fine {
          return;
        }
        AllRenewedStays(c.cfg, before, c.trace, renewed, |old(c.trace)|, c.me.instanceId);
      }
      reply := Fine;
      assert active - todo == active;
    }

    /** reapRenewActive: without an error, every job that stays active was renewed on the way. */
    method ReapRenewActive(frontier: set<string>, ghost initial: nat) returns (reply: Reply)
      requires Ready() && Truthful() && AllCounted() && Balanced(frontier, initial)
      modifies this`result, this`active, this`ended, c, c.store, c.mark, c.milestone, c.log, c.ledger
      ensures Ready() && Truthful() && AllCounted() && Balanced(frontier, initial) && reply != Lost
      ensures reply == Fine && old(c.Mine()) <= old(active) ==> c.Mine() <= active
      ensures reply == Fine ==> AllRenewed(c.cfg, c.trace, active, |old(c.trace)|, c.me.instanceId)
    {
      if active == {} {
        return Fine;
      }
      c.Pin();
      var ids, rows;
      reply, ids, rows := c.ListOwned();
      if reply == Fine {
        reply := ReapEach(frontier, initial, map id | id in rows && id in ids :: rows[id]);
      }
    }

    /** One active job on the way out; `job` is its row as just listed. */
    method CancelOne(id: string, job: Job) returns (reply: Reply, keep: bool)
      requires Ready()
      modifies c, c.store, c.log, c.signals, c.ledger
      ensures Ready() && c.Mine() <= old(c.Mine()) && reply != Lost
      ensures reply == Fine && !keep ==> id !in c.Mine()
      ensures !HasLaunchRecord(job) && !keep ==> c.Stored(id, Cancelled)
      ensures c.signals.cancelled == old(c.signals.cancelled) + (if HasLaunchRecord(job) then [id] else [])
      ensures reply == Fine && keep ==> c.ledger.finals == old(c.ledger.finals)
    {
      keep := true;
      if !HasLaunchRecord(job) {
        var finalized;
        reply, finalized := FinalizeClaimed(c, id, Cancelled, "runner shutting down");
        keep := !finalized;
        return;
      }
      var cancelled := c.Cancel(id);  // an error is tolerated when the context is done
      if cancelled != Fine {
        var done := c.Chance();
        if !done {
          return Broken, true;
        }
      }
      var obs, result;
      reply, obs := c.Inspect();
      if reply == Fine {
        ghost var e;
        reply, result, e := FinalizeWithLifecycle(c, id, obs, job.task.routeName in routes, settings);
        keep := !result.finalized && !result.ownershipLost;
      }
    }

    /** These active rows are this runner's and frozen, and were when bookmarked. */
    ghost predicate Stuck(stuck: set<string>)
      reads this, c.mark
    {
      stuck <= active && forall id :: id in stuck ==> FrozenFor(c.mark.at, c.me.instanceId, id)
    }

    method DropActive(id: string, ghost frontier: set<string>, ghost initial: nat)
      requires Balanced(frontier, initial) && id in active
      modifies this`active
      ensures Balanced(frontier, initial) && active == old(active) - {id}
    {
      AccountsAfterReap(result, active, ended.Keys, frontier, c.cfg.maxGlobal, initial, result, id, false, ended.Keys);
      active := active - {id};
    }

    lemma FrozenNotStored(id: string)
      requires c.Valid() && FrozenFor(c.mark.at, c.me.instanceId, id)
      ensures !c.Stored(id, Cancelled)
    {
      assert SettledRow(c.mark.at.db.jobs[id]);
    }

    /** One active job on the way out and what it leaves of the wave. */
    method CancelStep(id: string, frontier: set<string>, ghost initial: nat, rows: map<string, Job>, ghost stuck: set<string>)
      returns (reply: Reply)
      requires Ready() && Balanced(frontier, initial) && id in active && c.Mine() <= rows.Keys
      requires Stuck(stuck) && (id in stuck ==> id in rows && !HasLaunchRecord(rows[id]))
      modifies this`active, c, c.store, c.log, c.signals, c.ledger
      ensures Ready() && Balanced(frontier, initial) && reply != Lost
      ensures c.Mine() <= old(c.Mine()) && old(active) - {id} <= active <= old(active) && Stuck(stuck)
      ensures reply == Fine ==> active == old(active) || id !in c.Mine()
    {
      var keep := false;
      reply := Fine;
      if id in rows {
        reply, keep := CancelOne(id, rows[id]);
      }
      if id in stuck {
        FrozenNotStored(id);
      }
      if reply == Fine && !keep {
        DropActive(id, frontier, initial);
      }
    }

    method CancelEach(frontier: set<string>, ghost initial: nat, rows: map<string, Job>, ghost stuck: set<string>)
      returns (reply: Reply)
      requires Ready() && Balanced(frontier, initial) && c.Mine() <= rows.Keys
      requires Stuck(stuck) && forall id :: id in stuck ==> id in rows && !HasLaunchRecord(rows[id])
      modifies this`active, c, c.store, c.log, c.signals, c.ledger
      ensures Ready() && Balanced(frontier, initial) && reply != Lost && Stuck(stuck)
      ensures reply == Fine && old(c.Mine()) <= old(active) ==> c.Mine() <= active
    {
      var todo := active;
      while todo != {}
        invariant todo <= active
        invariant Ready() && Balanced(frontier, initial) && Stuck(stuck)
        invariant c.Mine() <= rows.Keys
        invariant old(c.Mine()) <= old(active) ==> c.Mine() <= active
        decreases todo
      {
        var id :| id in todo;
        todo := todo - {id};
        reply := CancelStep(id, frontier, initial, rows, stuck);
        if reply != Fine {
          return;
        }
      }
      reply := Fine;
    }

    method CancelRound(frontier: set<string>, ghost initial: nat, ghost stuck: set<string>) returns (reply: Reply)
      requires Ready() && Balanced(frontier, initial) && Stuck(stuck)
      modifies this`active, c, c.store, c.log, c.signals, c.ledger
      ensures Ready() && Balanced(frontier, initial) && reply != Lost && Stuck(stuck)
      ensures reply == Fine && old(c.Mine()) <= old(active) ==> c.Mine() <= active
    {
      var ids, rows;
      reply, ids, rows := c.ListOwned();
      if reply == Fine {
        forall id | id in stuck ensures id in ids && id in rows && !HasLaunchRecord(rows[id]) {
          assert FrozenFor(c.mark.at, c.me.instanceId, id) && SettledRow(c.mark.at.db.jobs[id]);
          assert id in c.Owned();
        }
        reply := CancelEach(frontier, initial, map id | id in rows && id in ids :: rows[id], stuck);
      }
    }

    /** The loop of cancelActive. */
    method CancelRounds(frontier: set<string>, ghost initial: nat, patience: nat, ghost stuck: set<string>) returns (reply: Reply)
      requires Ready() && Balanced(frontier, initial) && Stuck(stuck)
      modifies this`active, c, c.store, c.log, c.signals, c.ledger
      ensures Ready() && Balanced(frontier, initial) && reply != Lost && Stuck(stuck)
      ensures reply == Fine ==> active == {} && (old(c.Mine()) <= old(active) ==> c.Mine() == {})
    {
      var rounds := patience;
      while active != {}
        invariant Ready() && Balanced(frontier, initial) && Stuck(stuck)
        invariant old(c.Mine()) <= old(active) ==> c.Mine() <= active
        decreases rounds
      {
        reply := CancelRound(frontier, initial, stuck);
        if reply != Fine {
          return;
        }
        if rounds == 0 {
          return Broken;
        }
        rounds := rounds - 1;
      }
      reply := Fine;
    }

    /** The active jobs whose rows are this runner's and frozen. */
    ghost function FrozenNow(): set<string>
      reads this, c
    {
      set id | id in active && FrozenFor(c.s, c.me.instanceId, id)
    }

    /** cancelActive; `patience` is how many rounds its context allows. An active job whose row is frozen is never dropped,
        so with one the method never succeeds, however long it may go on. */
    method CancelActive(frontier: set<string>, ghost initial: nat, patience: nat) returns (reply: Reply)
      requires Ready() && Truthful() && Balanced(frontier, initial)
      modifies this`active, c, c.store, c.mark, c.log, c.signals, c.ledger
      ensures Ready() && Truthful() && Balanced(frontier, initial) && reply != Lost
      ensures reply == Fine ==> active == {} && (old(c.Mine()) <= old(active) ==> c.Mine() == {})
      ensures old(FrozenNow()) <= FrozenNow()
      ensures old(FrozenNow()) != {} ==> reply != Fine
    {
      ghost var stuck := FrozenNow();
      TallyLater(c.mark.at, c.s, ended, result);
      c.Remember();
      reply := CancelRounds(frontier, initial, patience, stuck);
      StillFrozen(stuck);
    }

    lemma StillFrozen(stuck: set<string>)
      requires c.Valid() && Stuck(stuck)
      ensures stuck <= FrozenNow()
    {
      forall id | id in stuck ensures FrozenFor(c.s, c.me.instanceId, id) {
        assert SettledRow(c.mark.at.db.jobs[id]);
      }
    }

    /** The part of a round that may end in an error. */
    method ReapAndRefill(frontier: set<string>, ghost initial: nat) returns (reply: Reply, rest: set<string>)
      requires Ready() && Truthful() && AllCounted() && Balanced(frontier, initial) && c.Mine() <= active
      modifies this`result, this`active, this`ended, c, c.store, c.mark, c.milestone, c.log, c.signals, c.ledger
      ensures Ready() && Truthful() && Balanced(rest, initial) && rest <= frontier && reply != Lost
      ensures reply == Fine ==> AllCounted() && c.Mine() <= active
      ensures reply == Fine ==> |active| >= c.cfg.maxGlobal || rest == {} || c.Exhausted(kinds, rest)
    {
      rest := frontier;
      reply := ReapRenewActive(rest, initial);
      if reply == Fine {
        reply, rest := Refill(rest, initial);
      }
    }

    /** One round of the loop; an error cancels what is active. */
    method Poll(frontier: set<string>, ghost initial: nat, patience: nat) returns (reply: Reply, rest: set<string>)
      requires Ready() && Truthful() && AllCounted() && Balanced(frontier, initial) && c.Mine() <= active
      modifies this`result, this`active, this`ended, c, c.store, c.mark, c.milestone, c.log, c.signals, c.ledger, c.pulse
      ensures Ready() && Truthful() && Balanced(rest, initial) && rest <= frontier && reply != Lost
      ensures c.pulse.beats == old(c.pulse.beats) + 1
      ensures reply == Fine ==> AllCounted() && c.Mine() <= active
      ensures reply == Fine ==> |active| >= c.cfg.maxGlobal || rest == {} || c.Exhausted(kinds, rest)
    {
      rest := frontier;
      reply := c.Beat();
      if reply == Broken && active == {} {
        return;
      }
      reply, rest := ReapAndRefill(rest, initial);
      if reply != Fine {
        var ignored := CancelActive(rest, initial, patience);
      }
    }

    lemma TrueNow()
      requires c.Valid() && Truthful()
      ensures forall id :: id in ended ==> c.Stored(id, ended[id])
    {
      TallyLater(c.mark.at, c.s, ended, result);
    }

    /** The loop of RunFrontier. */
    method Drain(frontier: set<string>, ghost initial: nat, patience: nat) returns (reply: Reply, rest: set<string>)
      requires Ready() && Truthful() && AllCounted() && Balanced(frontier, initial) && c.Mine() <= active
      modifies this`result, this`active, this`ended, c, c.store, c.mark, c.milestone, c.log, c.signals, c.ledger, c.pulse
      ensures Ready() && Truthful() && Balanced(rest, initial) && rest <= frontier && reply != Lost
      ensures reply == Fine ==> active == {} && c.Mine() == {} && AllCounted() && (rest == {} || c.Exhausted(kinds, rest))
    {
      rest := frontier;
      var polls := patience;
      while rest != {} || active != {}
        invariant Ready() && Truthful() && AllCounted() && Balanced(rest, initial) && rest <= frontier
        invariant c.Mine() <= active
        decreases polls
      {
        reply, rest := Poll(rest, initial, patience);
        if reply != Fine || active == {} {
          return;
        }
        if polls == 0 {  // the context is done
          var ignored := CancelActive(rest, initial, patience);
          return Broken, rest;
        }
        polls := polls - 1;
      }
      reply := Fine;
    }

    /** RunFrontier; `patience` is how many polls the context allows, so every finite run is one of these. However it ends,
        the counters are true of the store. Returning without error, the runner holds no row any more, nothing of the
        frontier is left to claim, and the counters count exactly the finalizations it made, cancellations apart. */
    method RunFrontier(patience: nat)
      returns (reply: Reply, initial: nat, rest: set<string>, ghost eligible: set<string>, ghost steps: seq<Step>)
      requires Ready() && c.Mine() == {} && active == {} && result == Result(0, 0, 0, 0, 0) && ended == map[]
      requires c.ledger.finals == map[]
      modifies this`result, this`active, this`ended, c, c.store, c.mark, c.milestone, c.log, c.signals, c.ledger, c.pulse
      ensures c.Valid() && Balanced(rest, initial) && Truthful() && reply != Lost
      ensures initial == |eligible| && rest <= eligible && old(c.trace) <= steps
      ensures forall id :: id in eligible <==> Queries.Eligible(Reached(c.cfg, steps).db, id, Reached(c.cfg, steps).clock)
      ensures reply == Fine ==> active == {} && c.Mine() == {} && AllCounted() && (rest == {} || c.Exhausted(kinds, rest))
    {
      var listed;
      reply, listed := c.ListEligible();
      rest := StringSet(listed);
      initial, eligible, steps := |rest|, rest, c.trace;
      if reply == Fine {
        reply, rest := Drain(rest, initial, patience);
      }
    }
  }
}
