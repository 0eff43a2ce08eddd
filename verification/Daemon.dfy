/** internal/daemon/daemon.go: one reconcile pass of a long-lived runner, and its shutdown after the loop has ended. */
module Daemon {
  import opened Wrappers
  import opened Model
  import opened Queries
  import opened Cluster
  import opened Holding
  import opened Workflow
  import opened Session
  import opened Launching
  import opened Lifecycle
  import opened Protocol
  import Recovery

  /** now.Add(-lease) */
  function Before(now: Time, lease: Time): Time
  {
    if now < lease then 0 else now - lease
  }

  /** The supervisor's answers to the questions from the n-th on. */
  function Inspector(env: Environment, n: nat): (string, bool) -> Option<Observation>
  {
    (id, again) => var k := if again then n + 1 else n; if env.yes(k) then Some(env.observations(k)) else None
  }

  /** At this moment of the run the row cannot be taken from the owner it was listed with, or the next step adopts or freezes
      it. */
  ghost predicate Met(cfg: Config, trace: seq<Step>, n: nat, who: Identity, id: string, job: Job, now: Time, cutoff: Time)
  {
    && n <= |trace|
    && (Takeable(Reached(cfg, trace[..n]).db, id, Text(job.owner), now, cutoff) ==>
          n < |trace|
          && trace[n] in {AdoptJob(who, id, Text(job.owner), now, cutoff), FreezeJob(id, Text(job.owner), now, cutoff)})
  }

  /** The row is an orphan with launch evidence at this moment of the run. */
  ghost predicate Listed(cfg: Config, trace: seq<Step>, n: nat, id: string, now: Time, cutoff: Time)
    requires n <= |trace|
  {
    var db := Reached(cfg, trace[..n]).db;
    id in db.jobs && StaleDurable(db, db.jobs[id], now, cutoff)
  }

  ghost predicate AllMet(cfg: Config, trace: seq<Step>, moments: map<string, nat>, ids: set<string>, listing: nat,
                         rows: map<string, Job>, who: Identity, now: Time, cutoff: Time)
  {
    forall id :: id in ids ==>
      id in rows && id in moments && listing <= moments[id] && Met(cfg, trace, moments[id], who, id, rows[id], now, cutoff)
  }

  /** What was met stays met as the run goes on. */
  lemma MetStays(cfg: Config, trace: seq<Step>, longer: seq<Step>, n: nat, who: Identity, id: string, job: Job, now: Time, cutoff: Time)
    requires trace <= longer && Met(cfg, trace, n, who, id, job, now, cutoff)
    ensures Met(cfg, longer, n, who, id, job, now, cutoff)
  {
    assert longer[..n] == trace[..n];
  }

  lemma AllMetAndOne(cfg: Config, trace: seq<Step>, longer: seq<Step>, moments: map<string, nat>, ids: set<string>, listing: nat,
                     rows: map<string, Job>, who: Identity, now: Time, cutoff: Time, id: string, moment: nat)
    requires trace <= longer && AllMet(cfg, trace, moments, ids, listing, rows, who, now, cutoff)
    requires id in rows && listing <= moment && Met(cfg, longer, moment, who, id, rows[id], now, cutoff)
    ensures AllMet(cfg, longer, moments[id := moment], ids + {id}, listing, rows, who, now, cutoff)
  {
    forall x | x in ids && x != id ensures Met(cfg, longer, moments[x], who, x, rows[x], now, cutoff) {
      MetStays(cfg, trace, longer, moments[x], who, x, rows[x], now, cutoff);
    }
  }

  /** What was observed of some rows, listed at one moment of the run, and when each was attended to. */
  datatype Attention = Attention(listing: nat, ids: set<string>, observed: map<string, Observation>, moments: map<string, nat>)

  /** A run observed as running was renewed at this moment: if the row was held then, its lease was extended by a whole lease.
      One observed as ended was settled: its row is not held any more at this moment. */
  ghost predicate Attended(cfg: Config, trace: seq<Step>, n: nat, r: string, id: string, obs: Observation)
  {
    && n <= |trace|
    && (obs.state in {RunStarting, RunRunning} ==> RenewalAt(cfg, trace, n, r, id))
    && (obs.state in {RunExited, RunFailed, RunTimedOut, RunCancelled} ==> id !in Holdings(Reached(cfg, trace[..n]), r))
  }

  /** Every row was attended to, from this moment of the run on. */
  ghost predicate AllAttended(cfg: Config, trace: seq<Step>, a: Attention, ids: set<string>, from: nat, r: string)
  {
    forall id :: id in ids ==>
      id in a.observed && id in a.moments && from <= a.moments[id] && Attended(cfg, trace, a.moments[id], r, id, a.observed[id])
  }

  lemma AttendedStays(cfg: Config, trace: seq<Step>, longer: seq<Step>, n: nat, r: string, id: string, obs: Observation)
    requires trace <= longer && Attended(cfg, trace, n, r, id, obs)
    ensures Attended(cfg, longer, n, r, id, obs)
  {
    assert longer[..n] == trace[..n];
    if obs.state in {RunStarting, RunRunning} {
      RenewalStays(cfg, trace, longer, n, r, id);
    }
  }

  lemma AllAttendedStays(cfg: Config, trace: seq<Step>, longer: seq<Step>, a: Attention, ids: set<string>, from: nat, r: string)
    requires trace <= longer && AllAttended(cfg, trace, a, ids, from, r)
    ensures AllAttended(cfg, longer, a, ids, from, r)
  {
    forall id | id in ids ensures Attended(cfg, longer, a.moments[id], r, id, a.observed[id]) {
      AttendedStays(cfg, trace, longer, a.moments[id], r, id, a.observed[id]);
    }
  }

  lemma AllAttendedAndOne(cfg: Config, trace: seq<Step>, longer: seq<Step>, a: Attention, ids: set<string>, from: nat, r: string,
                          id: string, moment: nat)
    requires trace <= longer && AllAttended(cfg, trace, a, ids, from, r)
    requires id in a.observed && from <= moment && Attended(cfg, longer, moment, r, id, a.observed[id])
    ensures AllAttended(cfg, longer, a.(moments := a.moments[id := moment]), ids + {id}, from, r)
  {
    AllAttendedStays(cfg, trace, longer, a, ids, from, r);
  }

  /** From this moment of the run on, the runner released expired leases and deleted old heartbeats, by one reading of the
      clock, keeping these rows. */
  ghost predicate Swept(trace: seq<Step>, from: nat, now: Time, lease: Time, r: string, active: set<string>)
  {
    && (exists n :: from <= n < |trace| && trace[n] == Release(now, Before(now, lease), r, active))
    && (exists n :: from <= n < |trace| && trace[n] == Step.PruneHeartbeats(Before(now, lease)))
  }

  lemma SweptStays(trace: seq<Step>, longer: seq<Step>, from: nat, now: Time, lease: Time, r: string, active: set<string>)
    requires trace <= longer && Swept(trace, from, now, lease, r, active)
    ensures Swept(longer, from, now, lease, r, active)
  {
    var n :| from <= n < |trace| && trace[n] == Release(now, Before(now, lease), r, active);
    assert longer[n] == trace[n];
    var m :| from <= m < |trace| && trace[m] == Step.PruneHeartbeats(Before(now, lease));
    assert longer[m] == trace[m];
  }

  /** What one pass has done by now, from this moment of the run on: owned rows, as listed, and adopted rows were attended to. */
  ghost predicate AttendedBoth(cfg: Config, trace: seq<Step>, own: Attention, adopted: Attention, from: nat, r: string)
  {
    && from <= own.listing <= |trace| && Holding.Owned(Reached(cfg, trace[..own.listing]), r) <= own.ids
    && AllAttended(cfg, trace, own, own.ids, from, r) && AllAttended(cfg, trace, adopted, adopted.ids, from, r)
  }

  lemma AttendedBothStays(cfg: Config, trace: seq<Step>, longer: seq<Step>, own: Attention, adopted: Attention, from: nat, r: string)
    requires trace <= longer && AttendedBoth(cfg, trace, own, adopted, from, r)
    ensures AttendedBoth(cfg, longer, own, adopted, from, r)
  {
    assert longer[..own.listing] == trace[..own.listing];
    AllAttendedStays(cfg, trace, longer, own, own.ids, from, r);
    AllAttendedStays(cfg, trace, longer, adopted, adopted.ids, from, r);
  }

  class Loop {
    const c: Session
    const kinds: seq<string>
    const routes: set<string>
    const settings: Settings

    constructor (c: Session, kinds: seq<string>, routes: set<string>, settings: Settings)
      requires c.Valid()
      ensures this.c == c && this.kinds == kinds && this.routes == routes && this.settings == settings
    {
      this.c, this.kinds, this.routes, this.settings := c, kinds, routes, settings;
    }

    ghost predicate Ready()
      reads this, c, c.store, c.mark, c.milestone
    {
      c.Valid() && c.Free()
    }

    /** What becomes of one claimed job: without an error it is launched, finalized, or no longer this runner's. */
    method Start(id: string) returns (reply: Reply)
      requires c.Valid() && id in c.s.db.jobs && c.At(id, Fresh)
      modifies c, c.store, c.log, c.signals, c.ledger
      ensures Ready() && reply != Lost
      ensures reply == Fine ==> id !in c.Unlaunched()
    {
      if c.s.db.jobs[id].task.routeName !in routes {
        var finalized;
        reply, finalized := FinalizeClaimed(c, id, Failed, "route not found");
        c.LeaveJob();
        return;
      }
      var p;
      ghost var f;
      reply, p, f := PrepareClaimedWrapperLaunch(c, id, settings);
      if reply == Broken || p.outcome != PrepareLaunch {
        return;
      }
      reply := LaunchClaimedWrapper(c, id);
      Protocol.ReachedInv(c.cfg, c.trace);
      if reply == Lost {
        reply := Fine;
      }
    }

    /** refill; `patience` is how many claims the context allows. Without an error it stops only when nothing is left to
        claim, and it leaves no row it claimed unlaunched. */
    method Refill(patience: nat) returns (reply: Reply)
      requires Ready()
      modifies c, c.store, c.mark, c.log, c.signals, c.ledger
      ensures Ready() && reply != Lost
      ensures reply == Fine ==> c.Unlaunched() <= old(c.Unlaunched()) && c.Saturated(kinds)
    {
      var claims := patience;
      while true
        invariant Ready() && c.Unlaunched() <= old(c.Unlaunched())
        decreases claims
      {
        c.Remember();
        reply := c.Elsewhere();  // CountRunningJobs
        if reply != Fine || |RunningJobs(c.s.db)| >= c.cfg.maxGlobal {
          return;
        }
        var claimed;
        reply, claimed := c.ClaimOne(kinds);
        if claimed.None? {
          return;
        }
        c.Remember();
        reply := Start(claimed.value);
        if reply != Fine {
          return;
        }
        if claims == 0 {
          return Broken;
        }
        claims := claims - 1;
      }
    }

    /** What reconcile does about one observed row: a running one is renewed, an ended one is settled, and an unknown one is
        left alone. */
    method Attend(id: string, job: Job, obs: Observation) returns (reply: Reply)
      requires Ready()
      modifies c, c.store, c.log, c.signals, c.ledger
      ensures Ready() && reply != Lost
      ensures reply == Fine && obs.state in {RunStarting, RunRunning} ==>
                |c.milestone.trace| < |c.trace| && RenewalAt(c.cfg, c.trace, |c.trace| - 1, c.me.instanceId, id)
      ensures reply == Fine && obs.state in {RunExited, RunFailed, RunTimedOut, RunCancelled} ==> id !in c.Mine()
      ensures obs.state == RunUnknown ==> reply == Fine && c.s == old(c.s)
    {
      if ObservationToDecision(obs) == KeepRunning {
        reply := c.Renew(id);
        if reply == Lost {
          reply := Fine;
        }
      } else if StatusForObservation(obs).Some? {
        var result;
        ghost var e;
        reply, result, e := FinalizeWithLifecycle(c, id, obs, job.task.routeName in routes, settings);
      } else {
        reply := Fine;
      }
    }

    /** ObserveOwnedRunningJobs, on the rows as listed */
    method ObserveEach(ids: seq<string>, rows: map<string, Job>) returns (reply: Reply, observed: map<string, Observation>)
      requires Ready() && forall id :: id in ids ==> id in rows
      modifies c, c.store
      ensures Ready() && reply != Lost
      ensures reply == Fine ==>
                forall id :: id in ids ==> id in observed && (!HasLaunchRecord(rows[id]) ==> observed[id].state == RunUnknown)
    {
      observed := map[];
      for i := 0 to |ids|
        invariant Ready()
        invariant forall k :: 0 <= k < i ==>
                    ids[k] in observed && (!HasLaunchRecord(rows[ids[k]]) ==> observed[ids[k]].state == RunUnknown)
      {
        var obs := Observation(RunUnknown, None, "", 0, "", "", "");
        if HasLaunchRecord(rows[ids[i]]) {
          reply, obs := c.Inspect();
          if reply != Fine {
            return;
          }
        }
        observed := observed[ids[i] := obs];
      }
      reply := Fine;
    }

    /** One listed row, and the moment of the run when it had been attended to. */
    method AttendListed(id: string, job: Job, obs: Observation) returns (reply: Reply, ghost moment: nat)
      requires Ready()
      modifies c, c.store, c.milestone, c.log, c.signals, c.ledger
      ensures Ready() && reply != Lost && old(c.trace) <= c.trace
      ensures reply == Fine ==> |old(c.trace)| <= moment && Attended(c.cfg, c.trace, moment, c.me.instanceId, id, obs)
    {
      c.Pin();
      reply := Attend(id, job, obs);
      moment := |c.trace|;
      assert c.trace[..|c.trace|] == c.trace;
      if reply == Fine && obs.state in {RunStarting, RunRunning} {
        moment := |c.trace| - 1;
      }
    }

    method AttendEach(ids: seq<string>, rows: map<string, Job>, observed: map<string, Observation>)
      returns (reply: Reply, ghost a: Attention)
      requires Ready() && forall id :: id in ids ==> id in rows && id in observed
      modifies c, c.store, c.milestone, c.log, c.signals, c.ledger
      ensures Ready() && reply != Lost && old(c.trace) <= c.trace && a.ids == StringSet(ids) && a.observed == observed
      ensures reply == Fine ==> AllAttended(c.cfg, c.trace, a, a.ids, |old(c.trace)|, c.me.instanceId)
    {
      a := Attention(|c.trace|, StringSet(ids), observed, map[]);
      for i := 0 to |ids|
        invariant Ready() && old(c.trace) <= c.trace && a.ids == StringSet(ids) && a.observed == observed
        invariant AllAttended(c.cfg, c.trace, a, StringSet(ids[..i]), |old(c.trace)|, c.me.instanceId)
      {
        ghost var before, moment := c.trace, 0;
        reply, moment := AttendListed(ids[i], rows[ids[i]], observed[ids[i]]);
        if reply != Fine {
          return;
        }
        assert StringSet(ids[..i + 1]) == StringSet(ids[..i]) + {ids[i]};
        AllAttendedAndOne(c.cfg, before, c.trace, a, StringSet(ids[..i]), |old(c.trace)|, c.me.instanceId, ids[i], moment);
        a := a.(moments := a.moments[ids[i] := moment]);
      }
      assert ids[..|ids|] == ids;
      reply := Fine;
    }

    /** The first part of reconcile; `ids` are the active ids, which cover every row the runner owns. Without an error every
        listed row was attended to: renewed when observed as running, settled when observed as ended. */
    method AttendOwned() returns (reply: Reply, ids: seq<string>, ghost a: Attention)
      requires Ready()
      modifies c, c.store, c.mark, c.milestone, c.log, c.signals, c.ledger
      ensures Ready() && reply != Lost && old(c.trace) <= c.trace
      ensures c.Owned() <= StringSet(ids) && c.Unlaunched() <= old(c.Unlaunched())
      ensures reply == Fine ==>
                && a.ids == StringSet(ids) && |old(c.trace)| <= a.listing <= |c.trace|
                && Holding.Owned(Reached(c.cfg, c.trace[..a.listing]), c.me.instanceId) <= a.ids
                && AllAttended(c.cfg, c.trace, a, a.ids, |old(c.trace)|, c.me.instanceId)
    {
      var rows, observed;
      c.Pin();
      c.Remember();
      reply, ids, rows := c.ListOwned();
      c.Remember();
      ghost var listed := c.trace;
      a := Attention(|listed|, {}, map[], map[]);
      if reply == Fine {
        c.Pin();
        reply, observed := ObserveEach(ids, rows);
      }
      if reply == Fine {
        reply, a := AttendEach(ids, rows, observed);
        a := a.(listing := |listed|);
      }
      assert listed <= c.trace && c.trace[..|listed|] == listed;
    }

    /** An adoption that the store has committed. */
    method RecordAdoption(id: string, oldOwner: string, now: Time, cutoff: Time)
      requires c.Running() && c.Free() && now <= c.s.clock && Takeable(c.s.db, id, oldOwner, now, cutoff)
      requires c.store.Contents() == c.s.db.(jobs := c.s.db.jobs[id := Adopted(c.s.db.jobs[id], c.me, now, c.cfg.lease)])
      modifies c`s, c`trace, c.mark
      ensures c.trace == old(c.trace) + [AdoptJob(c.me, id, oldOwner, now, cutoff)]
      ensures Ready() && now <= c.s.clock
      ensures c.Owned() <= old(c.Owned()) + {id} && c.Unlaunched() <= old(c.Unlaunched())
    {
      var step := AdoptJob(c.me, id, oldOwner, now, cutoff);
      Protocol.ReachedInv(c.cfg, c.trace);
      AdoptionTells(c.cfg, c.s, c.me, id, oldOwner, now, cutoff);
      c.Gain(step);
    }

    method RecordFreeze(id: string, oldOwner: string, now: Time, cutoff: Time)
      requires c.Running() && c.Free() && now <= c.s.clock && Takeable(c.s.db, id, oldOwner, now, cutoff)
      requires c.store.Contents() == c.s.db.(jobs := c.s.db.jobs[id := Frozen(c.s.db.jobs[id], now)])
      modifies c`s, c`trace, c.mark
      ensures c.trace == old(c.trace) + [FreezeJob(id, oldOwner, now, cutoff)]
      ensures Ready() && now <= c.s.clock
      ensures c.Owned() <= old(c.Owned()) && c.Unlaunched() <= old(c.Unlaunched())
    {
      FreezeStep(c.cfg, c.s, id, oldOwner, now, cutoff);
      c.mark.at := c.s;
      c.Take(FreezeJob(id, oldOwner, now, cutoff));
    }

    /** The row as listed may be out of date by now; the update's own guard decides. */
    method RecoverNow(id: string, job: Job, now: Time, cutoff: Time, inspect: (string, bool) -> Option<Observation>)
      returns (ok: bool, recovered: Option<Observation>)
      requires Ready() && now <= c.s.clock
      modifies c`s, c`trace, c.mark, c.store
      ensures Ready() && now <= c.s.clock
      ensures old(c.trace) <= c.trace
      ensures ok ==> Met(c.cfg, c.trace, |old(c.trace)|, c.me, id, job, now, cutoff)
      ensures ok ==> c.Owned() <= old(c.Owned()) + (if recovered.Some? then {id} else {})
      ensures c.Unlaunched() <= old(c.Unlaunched())
    {
      var outcome, adopted;
      assert c.trace[..|c.trace|] == c.trace;
      ok, outcome, adopted := Recovery.RecoverOne(c.store, inspect, c.me, c.cfg.lease, now, cutoff, id, job);
      recovered := None;
      if adopted {
        RecordAdoption(id, Text(job.owner), now, cutoff);
        recovered := inspect(id, true);
      } else if outcome == Done {
        RecordFreeze(id, Text(job.owner), now, cutoff);
      }
    }

    /** One listed orphan under interference; `moment` is where in the run its update came. */
    method RecoverListed(id: string, job: Job, now: Time, cutoff: Time)
      returns (reply: Reply, recovered: Option<Observation>, ghost moment: nat)
      requires Ready() && now <= c.s.clock
      modifies c, c.store, c.mark
      ensures Ready() && now <= c.s.clock && reply != Lost && old(c.trace) <= c.trace
      ensures reply == Fine ==> |old(c.trace)| <= moment && Met(c.cfg, c.trace, moment, c.me, id, job, now, cutoff)
      ensures reply == Fine ==> c.Owned() <= old(c.Owned()) + (if recovered.Some? then {id} else {})
      ensures c.Unlaunched() <= old(c.Unlaunched())
    {
      c.Remember();
      recovered, moment := None, 0;
      var fault := c.Call();
      if fault == NotCommitted {
        reply := Broken;
        return;
      }
      moment := |c.trace|;
      var ok;
      ok, recovered := InspectAndRecover(id, job, now, cutoff);
      reply := if ok && fault == NoFault then Fine else Broken;
    }

    /** The same with the supervisor's answers drawn first. */
    method InspectAndRecover(id: string, job: Job, now: Time, cutoff: Time) returns (ok: bool, recovered: Option<Observation>)
      requires Ready() && now <= c.s.clock
      modifies c`s, c`trace, c`asked, c.mark, c.store
      ensures Ready() && now <= c.s.clock
      ensures old(c.trace) <= c.trace
      ensures ok ==> Met(c.cfg, c.trace, |old(c.trace)|, c.me, id, job, now, cutoff)
      ensures ok ==> c.Owned() <= old(c.Owned()) + (if recovered.Some? then {id} else {})
      ensures c.Unlaunched() <= old(c.Unlaunched())
    {
      var n := c.Question();
      var again := c.Question();
      ok, recovered := RecoverNow(id, job, now, cutoff, Inspector(c.env, n));
    }

    /** The loop over the listed rows. */
    method RecoverEach(ids: seq<string>, rows: map<string, Job>, now: Time, cutoff: Time)
      returns (reply: Reply, recovered: seq<string>, observed: map<string, Observation>, ghost moments: map<string, nat>)
      requires Ready() && now <= c.s.clock && forall id :: id in ids ==> id in rows
      modifies c, c.store, c.mark
      ensures Ready() && reply != Lost && old(c.trace) <= c.trace
      ensures forall id :: id in recovered ==> id in rows && id in observed
      ensures reply == Fine ==> c.Owned() <= old(c.Owned()) + StringSet(recovered)
      ensures c.Unlaunched() <= old(c.Unlaunched())
      ensures reply == Fine ==> AllMet(c.cfg, c.trace, moments, StringSet(ids), |old(c.trace)|, rows, c.me, now, cutoff)
    {
      recovered, observed, moments := [], map[], map[];
      for i := 0 to |ids|
        invariant Ready() && now <= c.s.clock && old(c.trace) <= c.trace
        invariant forall id :: id in recovered ==> id in rows && id in observed
        invariant c.Owned() <= old(c.Owned()) + StringSet(recovered)
        invariant c.Unlaunched() <= old(c.Unlaunched())
        invariant AllMet(c.cfg, c.trace, moments, StringSet(ids[..i]), |old(c.trace)|, rows, c.me, now, cutoff)
      {
        var item;
        ghost var moment, before := 0, c.trace;
        reply, item, moment := RecoverListed(ids[i], rows[ids[i]], now, cutoff);
        if reply != Fine {
          return;
        }
        assert StringSet(ids[..i + 1]) == StringSet(ids[..i]) + {ids[i]};
        AllMetAndOne(c.cfg, before, c.trace, moments, StringSet(ids[..i]), |old(c.trace)|, rows, c.me, now, cutoff, ids[i], moment);
        moments := moments[ids[i] := moment];
        if item.Some? {
          recovered, observed := recovered + [ids[i]], observed[ids[i] := item.value];
        }
      }
      assert ids[..|ids|] == ids;
      reply := Fine;
    }

    /** RecoverStaleDurableRunningJobs among other runners. Rows are gained by adoption only, and every one is reported.
        Without an error, every row that was an orphan when listed was adopted or frozen at its moment in the run, or could
        not be taken any more at that moment. */
    method RecoverStale()
      returns (reply: Reply, recovered: seq<string>, rows: map<string, Job>, observed: map<string, Observation>,
               ghost listing: nat, ghost moments: map<string, nat>)
      requires Ready()
      modifies c, c.store, c.mark, c.milestone
      ensures Ready() && reply != Lost && old(c.trace) <= c.trace
      ensures forall id :: id in recovered ==> id in rows && id in observed
      ensures reply == Fine ==> c.Owned() <= old(c.Owned()) + StringSet(recovered)
      ensures c.Unlaunched() <= old(c.Unlaunched())
      ensures reply == Fine ==>
                && listing <= |c.trace| && rows == Reached(c.cfg, c.trace[..listing]).db.jobs
                && forall id :: Listed(c.cfg, c.trace, listing, id, old(c.s.clock), Before(old(c.s.clock), c.cfg.lease)) ==>
                     id in moments && listing <= moments[id]
                     && Met(c.cfg, c.trace, moments[id], c.me, id, rows[id], old(c.s.clock), Before(old(c.s.clock), c.cfg.lease))
    {
      var now := c.s.clock;
      var cutoff := Before(now, c.cfg.lease);
      var ids;
      recovered, observed, listing, moments := [], map[], 0, map[];
      c.Pin();
      c.Remember();
      reply, ids, rows := c.ListStale(now, cutoff);
      if reply != Fine {
        return;
      }
      listing := |c.trace|;
      ghost var listed := c.trace;
      reply, recovered, observed, moments := RecoverEach(ids, rows, now, cutoff);
      assert listed[..listing] == listed && c.trace[..listing] == listed;
    }

    /** RecoverExpiredLeases and PruneStaleHeartbeats, for a runner that names every row it owns. Without an error both are in
        the run: expired rows of owners stale for a lease are released, and the heartbeats that old are deleted. */
    method ReleaseAndPrune(active: seq<string>) returns (reply: Reply)
      requires Ready() && c.Owned() <= StringSet(active)
      modifies c, c.store, c.mark
      ensures Ready() && reply != Lost && c.Unlaunched() <= old(c.Unlaunched())
      ensures reply == Fine ==>
                Swept(c.trace, |c.milestone.trace|, old(c.s.clock), c.cfg.lease, c.me.instanceId, StringSet(active))
    {
      var now := c.s.clock;
      c.Remember();
      ghost var before;
      reply, before := c.ReleaseExpired(now, Before(now, c.cfg.lease), active);
      ghost var released := c.trace;
      if reply == Fine {
        reply := c.PruneHeartbeats(Before(now, c.cfg.lease));
      }
      if reply == Fine {
        assert c.trace[|released| - 1] == released[|released| - 1];
      }
    }

    /** reconcile: attend to the owned rows, recover orphans, release, prune and refill. Its release never takes a row of
        its own. Without an error every owned row, as listed, and every adopted row was attended to, expired leases were
        released by a reading of the clock, and the runner holds no unlaunched row that it did not hold unlaunched before. */
    method Reconcile(patience: nat) returns (reply: Reply, ghost own: Attention, ghost adopted: Attention, ghost now: Time)
      requires Ready()
      modifies c, c.store, c.mark, c.milestone, c.log, c.signals, c.ledger
      ensures Ready() && reply != Lost
      ensures reply == Fine ==> c.Unlaunched() <= old(c.Unlaunched()) && c.Saturated(kinds)
      ensures reply == Fine ==> AttendedBoth(c.cfg, c.trace, own, adopted, |old(c.trace)|, c.me.instanceId)
      ensures reply == Fine ==> Swept(c.trace, |old(c.trace)|, now, c.cfg.lease, c.me.instanceId, own.ids + adopted.ids)
    {
      reply, own, adopted, now := AttendAndSweep();
      if reply == Fine {
        c.Pin();
        reply := Refill(patience);
        AttendedBothStays(c.cfg, c.milestone.trace, c.trace, own, adopted, |old(c.trace)|, c.me.instanceId);
        SweptStays(c.milestone.trace, c.trace, |old(c.trace)|, now, c.cfg.lease, c.me.instanceId, own.ids + adopted.ids);
      }
    }

    /** reconcile up to the refill. */
    method AttendAndSweep() returns (reply: Reply, ghost own: Attention, ghost adopted: Attention, ghost now: Time)
      requires Ready()
      modifies c, c.store, c.mark, c.milestone, c.log, c.signals, c.ledger
      ensures Ready() && reply != Lost
      ensures reply == Fine ==> c.Unlaunched() <= old(c.Unlaunched())
      ensures reply == Fine ==> AttendedBoth(c.cfg, c.trace, own, adopted, |old(c.trace)|, c.me.instanceId)
      ensures reply == Fine ==> Swept(c.trace, |old(c.trace)|, now, c.cfg.lease, c.me.instanceId, own.ids + adopted.ids)
    {
      var active;
      reply, active, own, adopted := AttendAndRecover();
      now := c.s.clock;
      if reply == Fine {
        c.Pin();
        reply := ReleaseAndPrune(active);
        AttendedBothStays(c.cfg, c.milestone.trace, c.trace, own, adopted, |old(c.trace)|, c.me.instanceId);
      }
    }

    /** The first half of reconcile; `active` covers every row the runner owns, adopted ones included. */
    method AttendAndRecover() returns (reply: Reply, active: seq<string>, ghost own: Attention, ghost adopted: Attention)
      requires Ready()
      modifies c, c.store, c.mark, c.milestone, c.log, c.signals, c.ledger
      ensures Ready() && reply != Lost
      ensures reply == Fine ==> c.Unlaunched() <= old(c.Unlaunched()) && c.Owned() <= StringSet(active)
      ensures reply == Fine ==> StringSet(active) == own.ids + adopted.ids && old(c.trace) <= c.trace
      ensures reply == Fine ==> AttendedBoth(c.cfg, c.trace, own, adopted, |old(c.trace)|, c.me.instanceId)
    {
      var ids, recovered, rows, observed;
      ghost var listing, moments;
      adopted, active := Attention(0, {}, map[], map[]), [];
      reply, ids, own := AttendOwned();
      if reply != Fine {
        return;
      }
      ghost var attended := c.trace;
      reply, recovered, rows, observed, listing, moments := RecoverStale();
      if reply != Fine {
        return;
      }
      assert c.Owned() <= StringSet(ids + recovered);
      c.Remember();
      reply, adopted := AttendEach(recovered, rows, observed);
      active := ids + recovered;
      assert c.trace[..own.listing] == attended[..own.listing];
      AllAttendedStays(c.cfg, attended, c.trace, own, own.ids, |old(c.trace)|, c.me.instanceId);
    }

    /** An owned row without launch evidence during shutdown: it is cancelled unless it was launched. */
    method CloseUnlaunched(id: string, job: Job) returns (reply: Reply, remaining: bool)
      requires Ready() && !HasLaunchRecord(job)
      modifies c, c.store, c.ledger
      ensures Ready() && c.Mine() <= old(c.Mine()) && reply != Lost
      ensures reply == Fine && !remaining ==> id !in c.Mine()
      ensures reply == Fine && (job.launch.state == Some(Preparing) || !Present(job.launch.kind) || !Present(job.launch.token)) ==>
                id !in c.Mine()
      ensures c.ledger.finals == if remaining then old(c.ledger.finals) else old(c.ledger.finals)[id := Cancelled]
    {
      reply, remaining := Fine, true;
      if job.launch.state == Some(Preparing) || !Present(job.launch.kind) || !Present(job.launch.token) {
        reply := c.FinalizeOwned(id, Terminal(Cancelled, "runner shutting down", c.s.clock));
        remaining := reply != Fine;
        if reply == Lost {
          reply := Fine;
        }
      }
    }

    /** An owned row with launch evidence during shutdown: its run is cancelled, and then observed. */
    method CloseLaunched(id: string, job: Job) returns (reply: Reply, remaining: bool)
      requires Ready() && HasLaunchRecord(job)
      modifies c, c.store, c.signals, c.ledger
      ensures Ready() && c.Mine() <= old(c.Mine()) && reply != Lost
      ensures reply == Fine && !remaining ==> id !in c.Mine()
      ensures c.signals.cancelled == old(c.signals.cancelled) + [id]
    {
      var cancelled := c.Cancel(id);  // a cancelled or expired context is tolerated
      if cancelled != Fine {
        var tolerated := c.Chance();
        if !tolerated {
          return Broken, true;
        }
      }
      var obs;
      remaining := true;
      reply, obs := c.Inspect();
      if reply != Fine {
        return;
      }
      var result;
      ghost var started;
      reply, result, started := FinalizeOwnedObservation(c, id, job, obs);
      remaining := !result.finalized && !result.ownershipLost;
    }

    method CloseHeld(id: string, job: Job) returns (reply: Reply, remaining: bool)
      requires Ready()
      modifies c, c.store, c.signals, c.ledger
      ensures Ready() && c.Mine() <= old(c.Mine()) && reply != Lost
      ensures reply == Fine && !remaining ==> id !in c.Mine()
      ensures HasLaunchRecord(job) ==> c.signals.cancelled == old(c.signals.cancelled) + [id]
      ensures !HasLaunchRecord(job) ==>
                c.ledger.finals == old(c.ledger.finals) || c.ledger.finals == old(c.ledger.finals)[id := Cancelled]
    {
      if HasLaunchRecord(job) {
        reply, remaining := CloseLaunched(id, job);
      } else {
        reply, remaining := CloseUnlaunched(id, job);
      }
    }

    /** One owned row during shutdown, its lease renewed first; `job` is the row as listed. Unless the row counts as remaining,
        it is finalized or no longer this runner's. */
    method CloseOne(id: string, job: Job) returns (reply: Reply, remaining: bool)
      requires Ready()
      modifies c, c.store, c.milestone, c.signals, c.ledger
      ensures Ready() && c.Mine() <= old(c.Mine()) && reply != Lost
      ensures reply == Fine && !remaining ==> id !in c.Mine()
      ensures reply == Fine ==> RenewedSince(c.cfg, c.trace, |old(c.trace)|, c.me.instanceId, id)
      ensures reply == Fine && HasLaunchRecord(job) && id in c.Mine() ==> c.signals.cancelled == old(c.signals.cancelled) + [id]
      ensures !HasLaunchRecord(job) ==>
                c.ledger.finals == old(c.ledger.finals) || c.ledger.finals == old(c.ledger.finals)[id := Cancelled]
    {
      reply := c.Renew(id);
      if reply != Fine {
        reply := if reply == Lost then Fine else Broken;
        return reply, false;
      }
      c.Pin();
      reply, remaining := CloseHeld(id, job);
      RenewedSinceStays(c.cfg, c.milestone.trace, c.trace, |old(c.trace)|, c.me.instanceId, id);
    }

    /** One round over the owned rows. */
    method CloseAll() returns (reply: Reply, remaining: nat)
      requires Ready()
      modifies c, c.store, c.milestone, c.signals, c.ledger
      ensures Ready() && c.Mine() <= old(c.Mine()) && reply != Lost
      ensures reply == Fine && remaining == 0 ==> c.Mine() == {}
    {
      var ids, rows;
      remaining := 0;
      reply, ids, rows := c.ListOwned();
      if reply != Fine {
        return;
      }
      for i := 0 to |ids|
        invariant Ready() && c.Mine() <= old(c.Mine())
        invariant forall id :: id in ids ==> id in rows
        invariant remaining == 0 ==> forall id :: id in c.Mine() ==> id in ids[i..]
      {
        var open;
        assert ids[i] in ids;
        reply, open := CloseOne(ids[i], rows[ids[i]]);
        if reply != Fine {
          return;
        }
        if open {
          remaining := remaining + 1;
        }
        assert ids[i..] == [ids[i]] + ids[i + 1..];
      }
      reply := Fine;
    }

    /** shutdown; `patience` is how many rounds the cleanup deadline allows. Success means no row names this runner with a
        lease that has not run out. */
    method Shutdown(patience: nat) returns (reply: Reply)
      requires Ready()
      modifies c, c.store, c.milestone, c.signals, c.ledger, c.pulse
      ensures Ready() && c.Mine() <= old(c.Mine()) && reply != Lost
      ensures c.pulse.beats > old(c.pulse.beats) && c.pulse.stopped == old(c.pulse.stopped)
      ensures reply == Fine ==> c.Mine() == {}
    {
      var rounds := patience;
      while true
        invariant Ready() && c.Mine() <= old(c.Mine())
        invariant c.pulse.beats >= old(c.pulse.beats) && c.pulse.stopped == old(c.pulse.stopped)
        decreases rounds
      {
        reply := c.Beat();
        if reply != Fine {
          return;
        }
        var remaining;
        reply, remaining := CloseAll();
        if reply != Fine || remaining == 0 {
          return;
        }
        if rounds == 0 {
          return Broken;
        }
        rounds := rounds - 1;
      }
    }

    /** stop: the heartbeat is deleted only after a clean shutdown, and then nothing is left behind under it. */
    method Stop(patience: nat) returns (deleted: bool)
      requires Ready() && !c.pulse.stopped
      modifies c, c.store, c.milestone, c.signals, c.ledger, c.pulse
      ensures Ready() && (deleted <==> c.pulse.stopped)
      ensures deleted ==> c.Mine() == {}
    {
      var reply := Shutdown(patience);
      deleted := reply == Fine;
      if deleted {
        c.DeleteHeartbeat();
      }
    }
  }
}
