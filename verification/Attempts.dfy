/** The attempt counters: conservation of counts, and the cap on launches that actually worked. */
module AttemptCounters {
  import opened Wrappers
  import opened Model
  import opened Queries
  import opened Cluster
  import opened Rows

  /** Jobs whose latest count stands against this counter. */
  function Charged(s: System, key: AttemptKey): set<string>
  {
    set id | id in s.db.jobs && id !in s.history.reversed && s.db.jobs[id].attempt.scope.Some?
             && Provenance(s.db.jobs[id]) == key
  }

  /** A counter is its increments less its reversals, and covers the jobs that stand against it. */
  ghost predicate CounterOk(s: System, key: AttemptKey)
  {
    && Attempts(s.db, key) + s.history.reversals[key] == s.history.increments[key]
    && |Charged(s, key)| <= Attempts(s.db, key)
  }

  ghost predicate CountedRowsOk(s: System)
  {
    && |s.history.reversals| == |s.history.reversed|
    && (forall id :: id in s.db.jobs && s.db.jobs[id].attempt.scope.Some? && id !in s.history.reversed ==>
          s.db.jobs[id].attempt.count >= 1)
    && (forall id :: id in s.history.reversed ==> id in s.db.jobs && IsTerminal(s.db.jobs[id].status))
  }

  ghost predicate CountersOk(s: System)
  {
    CountedRowsOk(s) && forall key :: CounterOk(s, key)
  }

  /** Jobs whose latest count was within the limit never outnumber the limit. */
  ghost predicate GrantsOk(cfg: Config, s: System)
  {
    && (forall id :: id in s.history.granted ==> id in s.db.jobs && s.db.jobs[id].attempt.scope.Some?)
    && (forall key :: |Charged(s, key) * s.history.granted| <= MaxAttempts(cfg, key.routeName))
  }

  /** A step that counts and reverses nothing. */
  ghost predicate CountsNothing(s: System, s': System)
  {
    && s'.db.attempts == s.db.attempts
    && s'.history.increments == s.history.increments && s'.history.reversals == s.history.reversals
    && s'.history.reversed == s.history.reversed && s'.history.granted == s.history.granted
    && (forall id :: id in s.db.jobs ==>
          id in s'.db.jobs && s'.db.jobs[id].attempt == s.db.jobs[id].attempt && s'.db.jobs[id].task == s.db.jobs[id].task
          && (IsTerminal(s.db.jobs[id].status) ==> IsTerminal(s'.db.jobs[id].status)))
    && (forall id :: id in s'.db.jobs && id !in s.db.jobs ==> s'.db.jobs[id].attempt.scope.None?)
  }

  lemma CountsNothingKeeps(cfg: Config, s: System, s': System)
    requires CountsNothing(s, s') && CountersOk(s) && GrantsOk(cfg, s)
    ensures CountersOk(s') && GrantsOk(cfg, s')
  {
    forall key ensures Charged(s', key) == Charged(s, key) && CounterOk(s', key) {
      assert CounterOk(s, key);
    }
  }

  /** One job counted against one counter. */
  ghost predicate CountMove(cfg: Config, s: System, s': System, id: string, key: AttemptKey)
  {
    var n := Attempts(s.db, key) + 1;
    && id in s.db.jobs && s.db.jobs[id].status.Running?
    && id in s'.db.jobs && s'.db.jobs == s.db.jobs[id := s'.db.jobs[id]] && s'.db.jobs[id].status.Running?
    && Provenance(s'.db.jobs[id]) == key && s'.db.jobs[id].attempt.scope.Some? && s'.db.jobs[id].attempt.count == n
    && s'.db.attempts == s.db.attempts[key := n]
    && s'.history.increments == s.history.increments + multiset{key}
    && s'.history.reversals == s.history.reversals && s'.history.reversed == s.history.reversed
    && s'.history.granted == if n <= MaxAttempts(cfg, key.routeName) then s.history.granted + {id} else s.history.granted - {id}
  }

  lemma CountMoveCharges(cfg: Config, s: System, s': System, id: string, key: AttemptKey)
    requires CountMove(cfg, s, s', id, key) && CountersOk(s)
    ensures Charged(s', key) == Charged(s, key) + {id}
    ensures forall other :: other != key ==> Charged(s', other) == Charged(s, other) - {id}
  {
  }

  lemma CountMoveKeepsCounter(cfg: Config, s: System, s': System, id: string, key: AttemptKey, k: AttemptKey)
    requires CountMove(cfg, s, s', id, key) && CountersOk(s)
    ensures CounterOk(s', k)
  {
    CountMoveCharges(cfg, s, s', id, key);
    assert CounterOk(s, k);
    if k != key {
      Smaller(Charged(s', k), Charged(s, k));
    }
  }

  lemma CountMoveKeepsGrant(cfg: Config, s: System, s': System, id: string, key: AttemptKey, k: AttemptKey)
    requires CountMove(cfg, s, s', id, key) && CountersOk(s) && GrantsOk(cfg, s)
    ensures |Charged(s', k) * s'.history.granted| <= MaxAttempts(cfg, k.routeName)
  {
    CountMoveCharges(cfg, s, s', id, key);
    assert CounterOk(s, k);
    if k == key && id in s'.history.granted {
      Smaller(Charged(s', k) * s'.history.granted, Charged(s', k));
    } else {
      Smaller(Charged(s', k) * s'.history.granted, Charged(s, k) * s.history.granted);
    }
  }

  lemma CountMoveKeeps(cfg: Config, s: System, s': System, id: string, key: AttemptKey)
    requires CountMove(cfg, s, s', id, key) && CountersOk(s) && GrantsOk(cfg, s)
    ensures CountersOk(s') && GrantsOk(cfg, s')
  {
    forall k
      ensures CounterOk(s', k)
      ensures |Charged(s', k) * s'.history.granted| <= MaxAttempts(cfg, k.routeName)
    {
      CountMoveKeepsCounter(cfg, s, s', id, key, k);
      CountMoveKeepsGrant(cfg, s, s', id, key, k);
    }
  }

  lemma Smaller<T>(a: set<T>, b: set<T>)
    ensures a <= b ==> |a| <= |b|
  {
    if a <= b {
      assert b == a + (b - a);
    }
  }

  /** One finalized job taken off its counter. */
  ghost predicate ReverseMove(s: System, s': System, id: string, key: AttemptKey)
  {
    && id in s.db.jobs && s.db.jobs[id].status.Running? && id !in s.history.reversed
    && s.db.jobs[id].attempt.scope.Some? && Provenance(s.db.jobs[id]) == key && Attempts(s.db, key) > 0
    && id in s'.db.jobs && s'.db.jobs == s.db.jobs[id := s'.db.jobs[id]] && IsTerminal(s'.db.jobs[id].status)
    && s'.db.jobs[id].attempt.scope.Some? && Provenance(s'.db.jobs[id]) == key
    && s'.db.attempts == s.db.attempts[key := Attempts(s.db, key) - 1]
    && s'.history.reversals == s.history.reversals + multiset{key} && s'.history.reversed == s.history.reversed + {id}
    && s'.history.increments == s.history.increments && s'.history.granted == s.history.granted
  }

  lemma ReverseMoveCharges(s: System, s': System, id: string, key: AttemptKey, k: AttemptKey)
    requires ReverseMove(s, s', id, key)
    ensures Charged(s', k) == Charged(s, k) - {id}
    ensures id in Charged(s, key)
  {
  }

  lemma ReverseMoveKeepsKey(cfg: Config, s: System, s': System, id: string, key: AttemptKey, k: AttemptKey)
    requires ReverseMove(s, s', id, key) && CounterOk(s, k) && GrantsOk(cfg, s)
    ensures CounterOk(s', k)
    ensures |Charged(s', k) * s'.history.granted| <= MaxAttempts(cfg, k.routeName)
  {
    ReverseMoveCharges(s, s', id, key, k);
    Smaller(Charged(s', k) * s'.history.granted, Charged(s, k) * s.history.granted);
    Smaller(Charged(s', k), Charged(s, k));
  }

  /** The counter table is as it was, and new rows are uncounted. */
  ghost predicate PlainMove(s: System, s': System)
  {
    && s'.db.attempts == s.db.attempts
    && forall id :: id in s'.db.jobs && id !in s.db.jobs ==> s'.db.jobs[id].attempt.scope.None?
  }

  lemma PlainLaunching(cfg: Config, s: System, step: Step)
    requires IsLaunchStep(step) && !step.CountAttempt?
    ensures PlainMove(s, Next(cfg, s, step))
  {
  }

  lemma PlainHolding(cfg: Config, s: System, step: Step)
    requires step.RenewLease? || IsRecoveryStep(step)
    ensures PlainMove(s, Next(cfg, s, step))
  {
  }

  lemma PlainRest(cfg: Config, s: System, step: Step)
    requires MovesNoRow(step)
    ensures PlainMove(s, Next(cfg, s, step))
  {
  }

  lemma PlainTables(cfg: Config, s: System, step: Step)
    requires !step.CountAttempt? && !step.FinalizeJob?
    ensures PlainMove(s, Next(cfg, s, step))
  {
    if IsLaunchStep(step) {
      PlainLaunching(cfg, s, step);
    } else if step.RenewLease? || IsRecoveryStep(step) {
      PlainHolding(cfg, s, step);
    } else {
      PlainRest(cfg, s, step);
    }
  }

  lemma PlainRow(cfg: Config, s: System, step: Step, id: string)
    requires RowsOk(cfg, s) && !step.CountAttempt? && !step.FinalizeJob? && id in s.db.jobs
    ensures id in Next(cfg, s, step).db.jobs
    ensures Next(cfg, s, step).db.jobs[id].attempt == s.db.jobs[id].attempt
  {
    if step.SaveSpec? || step.CommitLaunch? || step.SaveRecord? {
      FrameLaunching(cfg, s, step, id);
    } else if step.RenewLease? {
      FrameRenew(cfg, s, step, id);
    } else if step.Release? || step.AdoptJob? || step.FreezeJob? {
      FrameRecovering(cfg, s, step, id);
    } else if step.Claim? {
      FrameClaim(cfg, s, step, id);
    } else {
      FrameRest(cfg, s, step, id);
    }
  }

  lemma PlainStep(cfg: Config, s: System, step: Step)
    requires ValidConfig(cfg) && RowsOk(cfg, s) && !step.CountAttempt? && !step.FinalizeJob?
    ensures CountsNothing(s, Next(cfg, s, step))
  {
    HistoryFrame(cfg, s, step);
    PlainTables(cfg, s, step);
    forall id | id in s.db.jobs
      ensures id in Next(cfg, s, step).db.jobs && Next(cfg, s, step).db.jobs[id].attempt == s.db.jobs[id].attempt
      ensures Next(cfg, s, step).db.jobs[id].task == s.db.jobs[id].task
      ensures IsTerminal(s.db.jobs[id].status) ==> IsTerminal(Next(cfg, s, step).db.jobs[id].status)
    {
      PlainRow(cfg, s, step, id);
      Frame(cfg, s, step, id);
    }
  }

  lemma CountStep(cfg: Config, s: System, step: Step)
    requires step.CountAttempt? && Next(cfg, s, step) != s
    ensures CountMove(cfg, s, Next(cfg, s, step), step.id, CounterOf(s.db, step.id, step.generation, step.scope))
  {
  }

  /** The finalization takes its job off a counter. */
  predicate Reverses(s: System, step: Step)
  {
    step.FinalizeJob? && Finalize(s.db, step.id, step.r, step.f, s.clock).1 == Done
    && step.f.workStarted == Some(false) && step.id in s.db.jobs && Reversible(s.db, s.db.jobs[step.id])
  }

  lemma FinalizeReverses(cfg: Config, s: System, step: Step)
    requires CountersOk(s) && Reverses(s, step)
    ensures ReverseMove(s, Next(cfg, s, step), step.id, Provenance(s.db.jobs[step.id]))
  {
  }

  lemma FinalizeCountsNothing(cfg: Config, s: System, step: Step)
    requires step.FinalizeJob? && !Reverses(s, step)
    ensures CountsNothing(s, Next(cfg, s, step))
  {
  }

  lemma FinalizeStep(cfg: Config, s: System, step: Step)
    requires CountersOk(s) && step.FinalizeJob?
    ensures CountsNothing(s, Next(cfg, s, step))
            || (step.id in s.db.jobs && ReverseMove(s, Next(cfg, s, step), step.id, Provenance(s.db.jobs[step.id])))
  {
    if Reverses(s, step) {
      FinalizeReverses(cfg, s, step);
    } else {
      FinalizeCountsNothing(cfg, s, step);
    }
  }

  lemma FinalizeKeepsKey(cfg: Config, s: System, step: Step, k: AttemptKey)
    requires CountersOk(s) && GrantsOk(cfg, s) && Reverses(s, step)
    ensures CounterOk(Next(cfg, s, step), k)
    ensures |Charged(Next(cfg, s, step), k) * Next(cfg, s, step).history.granted| <= MaxAttempts(cfg, k.routeName)
  {
    FinalizeReverses(cfg, s, step);
    assert CounterOk(s, k);
    ReverseMoveKeepsKey(cfg, s, Next(cfg, s, step), step.id, Provenance(s.db.jobs[step.id]), k);
  }

  lemma ReverseMoveKeepsRows(s: System, s': System, id: string, key: AttemptKey)
    requires CountedRowsOk(s) && ReverseMove(s, s', id, key)
    ensures CountedRowsOk(s')
  {
  }

  lemma FinalizeKeeps(cfg: Config, s: System, step: Step)
    requires CountersOk(s) && GrantsOk(cfg, s) && Reverses(s, step)
    ensures CountersOk(Next(cfg, s, step)) && GrantsOk(cfg, Next(cfg, s, step))
  {
    var s' := Next(cfg, s, step);
    FinalizeReverses(cfg, s, step);
    ReverseMoveKeepsRows(s, s', step.id, Provenance(s.db.jobs[step.id]));
    forall k
      ensures CounterOk(s', k)
      ensures |Charged(s', k) * s'.history.granted| <= MaxAttempts(cfg, k.routeName)
    {
      FinalizeKeepsKey(cfg, s, step, k);
    }
  }

  lemma CountersOkNext(cfg: Config, s: System, step: Step)
    requires ValidConfig(cfg) && RowsOk(cfg, s) && CountersOk(s) && GrantsOk(cfg, s)
    ensures CountersOk(Next(cfg, s, step)) && GrantsOk(cfg, Next(cfg, s, step))
  {
    if step.CountAttempt? {
      if Next(cfg, s, step) != s {
        CountStep(cfg, s, step);
        CountMoveKeeps(cfg, s, Next(cfg, s, step), step.id, CounterOf(s.db, step.id, step.generation, step.scope));
      }
    } else if step.FinalizeJob? {
      if Reverses(s, step) {
        FinalizeKeeps(cfg, s, step);
      } else {
        FinalizeCountsNothing(cfg, s, step);
        CountsNothingKeeps(cfg, s, Next(cfg, s, step));
      }
    } else {
      PlainStep(cfg, s, step);
      CountsNothingKeeps(cfg, s, Next(cfg, s, step));
    }
  }
}
