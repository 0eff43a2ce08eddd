/** internal/workflow/lifecycle.go and finalize.go: checks and actions before a launch, and after an observation. */
module Lifecycle {
  import opened Wrappers
  import opened Model
  import opened Queries
  import opened Cluster
  import opened Holding
  import opened Workflow
  import opened Session
  import opened Launching

  /** The parts of an action that cause a side effect. */
  datatype ActionShape = ActionShape(removes: bool, adds: bool, comments: bool)

  /** The settings these programs read besides the shared ones. */
  datatype Settings = Settings(onStart: ActionShape, onSuccess: ActionShape, onFailure: ActionShape,
                               onAttemptsExceeded: ActionShape, onTransitionsExceeded: ActionShape)

  function If(deeds: seq<Deed>, wanted: bool, deed: Deed): seq<Deed>
  {
    if wanted then deeds + [deed] else deeds
  }

  /** These calls, followed by the calls an action makes: read the issue, remove labels, add labels, comment, read it again if
      anything was done, and store it. */
  function WithAction(deeds: seq<Deed>, id: string, action: ActionShape): seq<Deed>
  {
    If(If(If(If(deeds + [ReadIssue(id)], action.removes, RemoveLabels(id)), action.adds, AddLabels(id)),
          action.comments, PostComment(id)), action != ActionShape(false, false, false), ReadIssue(id)) + [StoreIssue(id)]
  }

  /** More transitions than are allowed; the default limit is ten. */
  predicate OverTransitions(cfg: Config, changed: bool, transitions: nat)
  {
    changed && transitions > (if cfg.maxTransitions == 0 then 10 else cfg.maxTransitions)
  }

  /** FinalizeClaimedJobOwned: whether the row was finalized; otherwise ownership was lost or the call failed. */
  method FinalizeClaimed(c: Session, id: string, status: TerminalStatus, message: string) returns (reply: Reply, finalized: bool)
    requires c.Valid()
    modifies c, c.store, c.ledger
    ensures c.Valid() && c.Mine() <= old(c.Mine()) && Steady(old(c.s), c.s, c.me.instanceId)
    ensures reply != Lost && (reply == Fine ==> id !in c.Mine()) && (finalized ==> c.Stored(id, status))
    ensures c.ledger.finals == if finalized then old(c.ledger.finals)[id := status] else old(c.ledger.finals)
  {
    reply := c.FinalizeOwned(id, Terminal(status, message, c.s.clock));
    finalized := reply == Fine;
    if reply == Lost {
      reply := Fine;
    }
  }

  /** One side effect of ApplyWithHooks: ownership is renewed first. */
  method Effect(c: Session, id: string, wanted: bool, deed: Deed) returns (reply: Reply)
    requires c.Valid() && deed.job == id
    modifies c, c.store, c.log
    ensures c.Valid() && c.Mine() <= old(c.Mine()) && Steady(old(c.s), c.s, c.me.instanceId)
    ensures reply == Lost ==> id !in c.Mine()
    ensures reply == Fine ==> c.log.deeds == If(old(c.log.deeds), wanted, deed)
  {
    if !wanted {
      return Fine;
    }
    reply := c.Renew(id);
    if reply == Fine {
      reply := c.CallOut(deed);
    }
  }

  /** The label and comment calls of ApplyWithHooks. */
  method Mutate(c: Session, id: string, action: ActionShape) returns (reply: Reply)
    requires c.Valid()
    modifies c, c.store, c.log
    ensures c.Valid() && c.Mine() <= old(c.Mine()) && Steady(old(c.s), c.s, c.me.instanceId)
    ensures reply == Lost ==> id !in c.Mine()
    ensures reply == Fine ==>
              c.log.deeds == If(If(If(old(c.log.deeds), action.removes, RemoveLabels(id)), action.adds, AddLabels(id)),
                                action.comments, PostComment(id))
  {
    reply := Effect(c, id, action.removes, RemoveLabels(id));
    if reply == Fine {
      reply := Effect(c, id, action.adds, AddLabels(id));
    }
    if reply == Fine {
      reply := Effect(c, id, action.comments, PostComment(id));
    }
  }

  /** The calls of ApplyWithHooks up to the second refresh. */
  method RefreshAndMutate(c: Session, id: string, action: ActionShape) returns (reply: Reply)
    requires c.Valid()
    modifies c, c.store, c.log
    ensures c.Valid() && c.Mine() <= old(c.Mine()) && Steady(old(c.s), c.s, c.me.instanceId)
    ensures reply == Lost ==> id !in c.Mine()
    ensures reply == Fine ==> c.log.deeds + [StoreIssue(id)] == WithAction(old(c.log.deeds), id, action)
  {
    reply := Effect(c, id, true, ReadIssue(id));
    if reply != Fine {
      return;
    }
    reply := Mutate(c, id, action);
    if reply != Fine {
      return;
    }
    reply := Effect(c, id, action.removes || action.adds || action.comments, ReadIssue(id));
  }

  /** ApplyOwned: refresh, remove labels, add labels, comment, refresh again, store the snapshot. */
  method ApplyOwned(c: Session, id: string, issueKey: string, action: ActionShape) returns (reply: Reply, changed: bool)
    requires c.Valid()
    modifies c, c.store, c.log
    ensures c.Valid() && c.Mine() <= old(c.Mine()) && Steady(old(c.s), c.s, c.me.instanceId)
    ensures reply == Lost ==> id !in c.Mine()
    ensures reply == Fine ==> issueKey in c.s.db.issues && c.log.deeds == WithAction(old(c.log.deeds), id, action)
  {
    changed := false;
    reply := RefreshAndMutate(c, id, action);
    if reply != Fine {
      return;
    }
    reply := c.Renew(id);
    if reply != Fine {
      return;
    }
    reply := c.UpsertIssue(id, issueKey);
    changed := c.Chance();
  }

  /** CheckTransitionLimitOwned: dead exactly when the count it made is over the limit. A job let through leaves the issue's
      stored count within the limit. */
  method CheckTransitionLimit(c: Session, id: string, issueKey: string, settings: Settings)
    returns (reply: Reply, dead: bool, ghost counted: nat)
    requires c.Valid()
    modifies c, c.store, c.log
    ensures c.Valid() && c.Mine() <= old(c.Mine()) && Steady(old(c.s), c.s, c.me.instanceId)
    ensures reply == Lost ==> id !in c.Mine()
    ensures reply == Fine ==> (dead <==> OverTransitions(c.cfg, true, counted)) && (dead <==> !WithinTransitions(c.cfg, counted))
    ensures reply == Fine ==> issueKey in c.s.db.issues && c.s.db.issues[issueKey].transitions >= counted
    ensures reply == Fine && !dead ==> c.s.db.issues[issueKey].transitions == counted
    ensures reply == Fine ==>
              c.log.deeds == if dead && c.cfg.github then WithAction(old(c.log.deeds), id, settings.onTransitionsExceeded)
                             else old(c.log.deeds)
  {
    dead, counted := false, 0;
    reply := c.Renew(id);
    if reply != Fine {
      return;
    }
    var count;
    reply, count := c.CountTransitions(id, issueKey);
    if reply != Fine {
      return;
    }
    counted := count;
    var limit := if c.cfg.maxTransitions == 0 then 10 else c.cfg.maxTransitions;
    if limit >= 0 && count <= limit {
      return;
    }
    dead := true;
    if c.cfg.github {
      reply := c.Renew(id);
      if reply != Fine {
        return;
      }
      var changed;
      reply, changed := ApplyOwned(c, id, issueKey, settings.onTransitionsExceeded);
    }
  }

  /** These calls, followed by those of an action, and by those for too many transitions if that is what it leads to. */
  function WithActions(cfg: Config, deeds: seq<Deed>, id: string, action: ActionShape, changed: bool, transitions: nat,
                       settings: Settings): seq<Deed>
  {
    var made := WithAction(deeds, id, action);
    if OverTransitions(cfg, changed, transitions) && cfg.github then WithAction(made, id, settings.onTransitionsExceeded) else made
  }

  /** Apply an action and count a transition when it changed the labels. */
  method ApplyAndCount(c: Session, id: string, issueKey: string, action: ActionShape, settings: Settings)
    returns (reply: Reply, dead: bool, ghost changed: bool, ghost transitions: nat)
    requires c.Valid()
    modifies c, c.store, c.log
    ensures c.Valid() && c.Mine() <= old(c.Mine()) && Steady(old(c.s), c.s, c.me.instanceId)
    ensures reply == Lost ==> id !in c.Mine()
    ensures reply == Fine ==> (dead <==> OverTransitions(c.cfg, changed, transitions))
    ensures reply == Fine && changed ==> issueKey in c.s.db.issues && c.s.db.issues[issueKey].transitions >= transitions
    ensures reply == Fine ==>
              c.log.deeds == WithActions(c.cfg, old(c.log.deeds), id, action, changed, transitions, settings)
  {
    dead, transitions := false, 0;
    var altered;
    reply, altered := ApplyOwned(c, id, issueKey, action);
    changed := altered;
    if reply == Fine && altered {
      reply, dead, transitions := CheckTransitionLimit(c, id, issueKey, settings);
    }
  }

  // ---- Before a launch ----

  datatype PrepareOutcome = PrepareLaunch | PrepareDone | PrepareDropped

  datatype Prepared = Prepared(outcome: PrepareOutcome, status: TerminalStatus, finalized: bool)

  const DROPPED := Prepared(PrepareDropped, Failed, false)

  /** What a preparation came across: whether a call failed, whether the route still matches the issue, whether the gate
      blocks the attempt's scope, the count made, and whether on_start changed the labels, with the count that followed. */
  datatype Findings = Findings(failed: bool, matches: bool, blocked: bool, attempts: Option<nat>, changed: bool, transitions: nat)

  const NOTHING_FOUND := Findings(false, true, false, None, false, 0)

  predicate OverAttempts(f: Findings, limit: nat)
  {
    f.attempts.Some? && f.attempts.value > limit
  }

  /** Which findings lead to which outcome. */
  predicate Explained(cfg: Config, f: Findings, limit: nat, p: Prepared)
  {
    && (p.outcome == PrepareDone ==>
          && (p.status == Skipped <==> !f.failed && (!f.matches || f.blocked))
          && (p.status == Dead <==> !f.failed && (OverAttempts(f, limit) || OverTransitions(cfg, f.changed, f.transitions)))
          && (p.status == Failed <==> f.failed))
    && (p.outcome == PrepareDropped ==> f.failed)
    && (p.outcome == PrepareLaunch <==>
          !f.failed && f.matches && !f.blocked && !OverAttempts(f, limit) && !OverTransitions(cfg, f.changed, f.transitions)
          && (cfg.github ==> f.attempts.Some?))
    && (p.finalized ==> p.outcome == PrepareDone)
  }

  /** These calls, followed by those of the actions that the count and the limits call for. */
  function WithStart(cfg: Config, deeds: seq<Deed>, id: string, f: Findings, limit: nat, settings: Settings): seq<Deed>
  {
    if f.attempts.None? then deeds
    else if OverAttempts(f, limit) then WithAction(deeds, id, settings.onAttemptsExceeded)
    else WithActions(cfg, deeds, id, settings.onStart, f.changed, f.transitions, settings)
  }

  /** finalizePrepared */
  method FinalizePrepared(c: Session, id: string, status: TerminalStatus, message: string) returns (reply: Reply, p: Prepared)
    requires c.Valid()
    modifies c, c.store, c.ledger
    ensures c.Valid() && c.Free() && c.Mine() <= old(c.Mine())
    ensures reply != Lost && p.outcome == PrepareDone && (reply == Fine ==> id !in c.Mine())
    ensures p.status == status && (p.finalized ==> c.Stored(id, status))
    ensures c.ledger.finals == if p.finalized then old(c.ledger.finals)[id := status] else old(c.ledger.finals)
  {
    var finalized;
    reply, finalized := FinalizeClaimed(c, id, status, message);
    c.LeaveJob();
    p := Prepared(PrepareDone, status, finalized);
  }

  /** dropPrepared */
  method DropPrepared(c: Session, id: string, loss: Reply) returns (reply: Reply, p: Prepared)
    requires c.Valid() && (loss == Lost ==> id !in c.Mine())
    modifies c, c.store
    ensures c.Valid() && c.Free() && c.Mine() <= old(c.Mine())
    ensures reply != Lost && p == DROPPED && (reply == Fine ==> id !in c.Mine())
  {
    c.LeaveJob();
    reply := if loss == Lost then Fine else Broken;
    p := DROPPED;
  }

  /** PrepareClaimedWrapperLaunch: it lets a job through to launch only when counted within the limit (or when there is no
      GitHub client), and otherwise ends with the row finalized or no longer this runner's. */
  method PrepareClaimedWrapperLaunch(c: Session, id: string, settings: Settings)
    returns (reply: Reply, p: Prepared, ghost f: Findings)
    requires c.Valid() && c.At(id, Fresh) && id in c.s.db.jobs
    modifies c, c.store, c.log, c.ledger
    ensures c.Valid() && c.Mine() <= old(c.Mine()) && reply != Lost
    ensures reply == Broken ==> c.Free() && p.outcome != PrepareLaunch
    ensures p.outcome == PrepareLaunch ==> c.At(id, Granted) || (!c.cfg.github && c.At(id, Fresh))
    ensures reply == Fine && p.outcome != PrepareLaunch ==> c.Free() && id !in c.Mine()
    ensures p.finalized ==> p.status in {Failed, Skipped, Dead} && c.Stored(id, p.status)
    ensures c.ledger.finals == if p.finalized then old(c.ledger.finals)[id := p.status] else old(c.ledger.finals)
    ensures Explained(c.cfg, f, MaxAttempts(c.cfg, old(c.s.db.jobs[id].task.routeName)), p)
    ensures !f.failed ==>
              c.log.deeds == if !c.cfg.github then old(c.log.deeds)
                             else WithStart(c.cfg, old(c.log.deeds) + [ReadIssue(id)] + [StoreIssue(id)], id, f,
                                            MaxAttempts(c.cfg, old(c.s.db.jobs[id].task.routeName)), settings)
  {
    f := NOTHING_FOUND.(failed := true);
    var issueKey := c.s.db.jobs[id].task.issueKey;
    var issue := c.Elsewhere();  // GetIssue
    if issue != Fine {
      reply, p := FinalizePrepared(c, id, Failed, "load issue");
      return;
    }
    if !c.cfg.github {
      return Fine, Prepared(PrepareLaunch, Failed, false), NOTHING_FOUND;
    }
    reply := c.Renew(id);
    if reply != Fine {
      reply, p := DropPrepared(c, id, reply);
      return;
    }
    reply, p, f := RefreshAndStart(c, id, issueKey, settings);
  }

  /** With a GitHub client and the lease renewed: refresh the issue, store it, and go on. */
  method RefreshAndStart(c: Session, id: string, issueKey: string, settings: Settings)
    returns (reply: Reply, p: Prepared, ghost f: Findings)
    requires c.Valid() && c.At(id, Fresh) && id in c.s.db.jobs && c.cfg.github && c.Renewed(id)
    modifies c, c.store, c.log, c.ledger
    ensures c.Valid() && c.Mine() <= old(c.Mine()) && reply != Lost
    ensures reply == Broken ==> c.Free() && p.outcome != PrepareLaunch
    ensures p.outcome == PrepareLaunch ==> c.At(id, Granted)
    ensures reply == Fine && p.outcome != PrepareLaunch ==> c.Free() && id !in c.Mine()
    ensures p.finalized ==> p.status in {Failed, Skipped, Dead} && c.Stored(id, p.status)
    ensures c.ledger.finals == if p.finalized then old(c.ledger.finals)[id := p.status] else old(c.ledger.finals)
    ensures Explained(c.cfg, f, MaxAttempts(c.cfg, old(c.s.db.jobs[id].task.routeName)), p)
    ensures !f.failed ==>
              c.log.deeds == WithStart(c.cfg, old(c.log.deeds) + [ReadIssue(id)] + [StoreIssue(id)], id, f,
                                       MaxAttempts(c.cfg, old(c.s.db.jobs[id].task.routeName)), settings)
  {
    f := NOTHING_FOUND.(failed := true);
    var refreshed := c.CallOut(ReadIssue(id));
    if refreshed != Fine {
      reply, p := FinalizePrepared(c, id, Failed, "refresh issue");
      return;
    }
    reply := c.Renew(id);
    if reply != Fine {
      reply, p := DropPrepared(c, id, reply);
      return;
    }
    var stored := c.UpsertIssue(id, issueKey);
    if stored != Fine {
      reply, p := FinalizePrepared(c, id, Failed, "store refreshed issue");
      return;
    }
    reply, p, f := CountAndStart(c, id, issueKey, settings);
  }

  /** The second half: the route predicate, the attempt scope, the count, on_start and the transition limit. */
  method CountAndStart(c: Session, id: string, issueKey: string, settings: Settings)
    returns (reply: Reply, p: Prepared, ghost f: Findings)
    requires c.Valid() && c.At(id, Fresh) && id in c.s.db.jobs && c.cfg.github
    modifies c, c.store, c.log, c.ledger
    ensures c.Valid() && c.Mine() <= old(c.Mine()) && reply != Lost
    ensures reply == Broken ==> c.Free() && p.outcome != PrepareLaunch
    ensures p.outcome == PrepareLaunch ==> c.At(id, Granted)
    ensures reply == Fine && p.outcome != PrepareLaunch ==> c.Free() && id !in c.Mine()
    ensures p.finalized ==> p.status in {Failed, Skipped, Dead} && c.Stored(id, p.status)
    ensures c.ledger.finals == if p.finalized then old(c.ledger.finals)[id := p.status] else old(c.ledger.finals)
    ensures Explained(c.cfg, f, MaxAttempts(c.cfg, old(c.s.db.jobs[id].task.routeName)), p)
    ensures !f.failed ==>
              c.log.deeds == WithStart(c.cfg, old(c.log.deeds), id, f, MaxAttempts(c.cfg, old(c.s.db.jobs[id].task.routeName)), settings)
  {
    var matches := c.Chance();
    f := NOTHING_FOUND.(matches := matches);
    if !matches {
      reply, p := FinalizePrepared(c, id, Skipped, "stale route predicate");
      return;
    }
    reply, p, f := ScopeAndStart(c, id, issueKey, settings);
  }

  /** What an attempt is counted under; a gate may block that, and a call may fail. */
  datatype Scope = Scoped(generation: int, scope: string) | ScopeBlocked | ScopeUnknown

  /** GetIssueState and AttemptScopeHash; the ghost results are how the two calls went and whether the gate blocked. */
  method FindScope(c: Session, issueKey: string) returns (scope: Scope, ghost known: Reply, ghost hashed: Reply, ghost gated: bool)
    requires c.Valid()
    modifies c, c.store
    ensures c.Valid() && c.Mine() <= old(c.Mine()) && Steady(old(c.s), c.s, c.me.instanceId)
    ensures scope.Scoped? <==> known == Fine && hashed == Fine
    ensures scope.ScopeBlocked? <==> known == Fine && hashed != Fine && gated
    ensures scope.Scoped? ==> issueKey in c.s.db.issues && scope.generation == c.s.db.issues[issueKey].generation
  {
    hashed, gated := Broken, false;
    var stated, generation := c.GetIssueState(issueKey);
    known := stated;
    if stated != Fine {
      return ScopeUnknown, known, hashed, gated;
    }
    var derived := c.Elsewhere();  // AttemptScopeHash
    hashed := derived;
    if derived != Fine {
      var blocked := c.Chance();
      return if blocked then ScopeBlocked else ScopeUnknown, known, hashed, blocked;
    }
    var hash := c.Word();
    scope := Scoped(generation, hash);
  }

  /** For a job whose route still matches: the attempt scope, the count, on_start and the transition limit. */
  method ScopeAndStart(c: Session, id: string, issueKey: string, settings: Settings)
    returns (reply: Reply, p: Prepared, ghost f: Findings)
    requires c.Valid() && c.At(id, Fresh) && id in c.s.db.jobs && c.cfg.github
    modifies c, c.store, c.log, c.ledger
    ensures c.Valid() && c.Mine() <= old(c.Mine()) && reply != Lost
    ensures reply == Broken ==> c.Free() && p.outcome != PrepareLaunch
    ensures p.outcome == PrepareLaunch ==> c.At(id, Granted)
    ensures reply == Fine && p.outcome != PrepareLaunch ==> c.Free() && id !in c.Mine()
    ensures p.finalized ==> p.status in {Failed, Skipped, Dead} && c.Stored(id, p.status)
    ensures c.ledger.finals == if p.finalized then old(c.ledger.finals)[id := p.status] else old(c.ledger.finals)
    ensures f.matches && Explained(c.cfg, f, MaxAttempts(c.cfg, old(c.s.db.jobs[id].task.routeName)), p)
    ensures !f.failed ==>
              c.log.deeds == WithStart(c.cfg, old(c.log.deeds), id, f, MaxAttempts(c.cfg, old(c.s.db.jobs[id].task.routeName)), settings)
  {
    var scope;
    ghost var known, hashed, gated;
    scope, known, hashed, gated := FindScope(c, issueKey);
    f := NOTHING_FOUND.(blocked := scope.ScopeBlocked?, failed := scope.ScopeUnknown?);
    if !scope.Scoped? {
      reply, p := FinalizePrepared(c, id, if scope.ScopeBlocked? then Skipped else Failed, "derive attempt scope");
      return;
    }
    reply, p, f := CountWithin(c, id, issueKey, scope.generation, scope.scope, settings);
  }

  /** The count, and what follows from it. */
  method CountWithin(c: Session, id: string, issueKey: string, generation: int, scope: string, settings: Settings)
    returns (reply: Reply, p: Prepared, ghost f: Findings)
    requires c.Valid() && c.At(id, Fresh) && id in c.s.db.jobs && c.cfg.github
    modifies c, c.store, c.log, c.ledger
    ensures c.Valid() && c.Mine() <= old(c.Mine()) && reply != Lost
    ensures reply == Broken ==> c.Free() && p.outcome != PrepareLaunch
    ensures p.outcome == PrepareLaunch ==> c.At(id, Granted)
    ensures reply == Fine && p.outcome != PrepareLaunch ==> c.Free() && id !in c.Mine()
    ensures p.finalized ==> p.status in {Failed, Skipped, Dead} && c.Stored(id, p.status)
    ensures c.ledger.finals == if p.finalized then old(c.ledger.finals)[id := p.status] else old(c.ledger.finals)
    ensures f.matches && !f.blocked && Explained(c.cfg, f, MaxAttempts(c.cfg, old(c.s.db.jobs[id].task.routeName)), p)
    ensures !f.failed ==>
              c.log.deeds == WithStart(c.cfg, old(c.log.deeds), id, f, MaxAttempts(c.cfg, old(c.s.db.jobs[id].task.routeName)), settings)
  {
    f := NOTHING_FOUND.(failed := true);
    var count;
    reply, count := c.CountAttempts(id, generation, scope);
    if reply == Lost {
      reply, p := DropPrepared(c, id, reply);
      return;
    }
    if reply == Broken {
      reply, p := FinalizePrepared(c, id, Failed, "increment attempts");
      return;
    }
    reply, p, f := ActOnCount(c, id, issueKey, count, MaxAttempts(c.cfg, c.s.db.jobs[id].task.routeName), settings);
  }

  /** The lease is renewed before anything follows from the count. */
  method ActOnCount(c: Session, id: string, issueKey: string, count: nat, limit: nat, settings: Settings)
    returns (reply: Reply, p: Prepared, ghost f: Findings)
    requires c.Valid() && c.cfg.github && c.At(id, if count <= limit then Granted else Refused)
    modifies c, c.store, c.log, c.ledger
    ensures c.Valid() && c.Mine() <= old(c.Mine()) && reply != Lost
    ensures reply == Broken ==> c.Free() && p.outcome != PrepareLaunch
    ensures p.outcome == PrepareLaunch ==> c.At(id, Granted)
    ensures reply == Fine && p.outcome != PrepareLaunch ==> c.Free() && id !in c.Mine()
    ensures p.finalized ==> p.status in {Failed, Skipped, Dead} && c.Stored(id, p.status)
    ensures c.ledger.finals == if p.finalized then old(c.ledger.finals)[id := p.status] else old(c.ledger.finals)
    ensures (!f.failed ==> f.attempts == Some(count)) && f.matches && !f.blocked && Explained(c.cfg, f, limit, p)
    ensures !f.failed ==>
              c.log.deeds == WithStart(c.cfg, old(c.log.deeds), id, f, limit, settings)
  {
    f := NOTHING_FOUND.(failed := true);
    reply := c.Renew(id);
    if reply != Fine {
      reply, p := DropPrepared(c, id, reply);
      return;
    }
    reply, p, f := Proceed(c, id, issueKey, count, limit, settings);
  }

  /** Beyond the limit the job ends, within it on_start comes next. */
  method Proceed(c: Session, id: string, issueKey: string, count: nat, limit: nat, settings: Settings)
    returns (reply: Reply, p: Prepared, ghost f: Findings)
    requires c.Valid() && c.cfg.github && c.At(id, if count <= limit then Granted else Refused)
    modifies c, c.store, c.log, c.ledger
    ensures c.Valid() && c.Mine() <= old(c.Mine()) && reply != Lost
    ensures reply == Broken ==> c.Free() && p.outcome != PrepareLaunch
    ensures p.outcome == PrepareLaunch ==> c.At(id, Granted)
    ensures reply == Fine && p.outcome != PrepareLaunch ==> c.Free() && id !in c.Mine()
    ensures p.finalized ==> p.status in {Failed, Skipped, Dead} && c.Stored(id, p.status)
    ensures c.ledger.finals == if p.finalized then old(c.ledger.finals)[id := p.status] else old(c.ledger.finals)
    ensures (!f.failed ==> f.attempts == Some(count)) && f.matches && !f.blocked && Explained(c.cfg, f, limit, p)
    ensures !f.failed ==>
              c.log.deeds == WithStart(c.cfg, old(c.log.deeds), id, f, limit, settings)
  {
    if count > limit {
      ghost var acted;
      reply, p, acted := Exceeded(c, id, issueKey, settings);
      f := NOTHING_FOUND.(attempts := Some(count), failed := acted != Fine);
    } else {
      reply, p, f := StartActions(c, id, issueKey, settings);
      f := f.(attempts := Some(count));
    }
  }

  /** A job counted beyond the limit ends dead once the action for that is applied, and failed when that fails. */
  method Exceeded(c: Session, id: string, issueKey: string, settings: Settings)
    returns (reply: Reply, p: Prepared, ghost acted: Reply)
    requires c.Valid()
    modifies c, c.store, c.log, c.ledger
    ensures c.Valid() && c.Free() && c.Mine() <= old(c.Mine())
    ensures reply != Lost && p.outcome != PrepareLaunch && (reply == Fine ==> id !in c.Mine())
    ensures p.finalized ==> p.outcome == PrepareDone && c.Stored(id, p.status)
    ensures c.ledger.finals == if p.finalized then old(c.ledger.finals)[id := p.status] else old(c.ledger.finals)
    ensures p.outcome == PrepareDone ==> acted != Lost && p.status == if acted == Fine then Dead else Failed
    ensures p.outcome == PrepareDropped ==> acted != Fine
    ensures acted == Fine ==> c.log.deeds == WithAction(old(c.log.deeds), id, settings.onAttemptsExceeded)
  {
    var changed;
    reply, changed := ApplyOwned(c, id, issueKey, settings.onAttemptsExceeded);
    acted := reply;
    if reply == Lost {
      reply, p := DropPrepared(c, id, reply);
    } else if reply == Broken {
      reply, p := FinalizePrepared(c, id, Failed, "apply attempts-exceeded actions");
    } else {
      reply, p := FinalizePrepared(c, id, Dead, "max attempts exceeded");
    }
  }

  /** on_start and the transition limit, for a job counted within its attempt limit. */
  method StartActions(c: Session, id: string, issueKey: string, settings: Settings)
    returns (reply: Reply, p: Prepared, ghost f: Findings)
    requires c.Valid() && c.At(id, Granted) && c.cfg.github
    modifies c, c.store, c.log, c.ledger
    ensures c.Valid() && c.Mine() <= old(c.Mine()) && reply != Lost
    ensures reply == Broken ==> c.Free() && p.outcome != PrepareLaunch
    ensures p.outcome == PrepareLaunch ==> c.At(id, Granted)
    ensures reply == Fine && p.outcome != PrepareLaunch ==> c.Free() && id !in c.Mine()
    ensures p.finalized ==> p.status in {Failed, Dead} && c.Stored(id, p.status)
    ensures c.ledger.finals == if p.finalized then old(c.ledger.finals)[id := p.status] else old(c.ledger.finals)
    ensures f.matches && !f.blocked && Explained(c.cfg, f.(attempts := Some(0)), 0, p)
    ensures !f.failed ==> c.log.deeds == WithStart(c.cfg, old(c.log.deeds), id, f.(attempts := Some(0)), 0, settings)
  {
    var dead;
    ghost var changed, transitions;
    reply, dead, changed, transitions := ApplyAndCount(c, id, issueKey, settings.onStart, settings);
    f := NOTHING_FOUND.(failed := reply != Fine, changed := changed, transitions := transitions);
    if reply == Lost {
      reply, p := DropPrepared(c, id, reply);
    } else if reply == Broken {
      reply, p := FinalizePrepared(c, id, Failed, "on_start");
    } else if dead {
      reply, p := FinalizePrepared(c, id, Dead, "max transitions exceeded");
    } else {
      p := Prepared(PrepareLaunch, Failed, false);
    }
  }

  // ---- After an observation ----

  datatype Finalization = Finalization(status: TerminalStatus, finalized: bool, ownershipLost: bool)

  const KEPT := Finalization(Failed, false, false)

  /** The row is finalized with this status and the output of the observed process, and its count was reversed exactly when
      the process reported that work never started and the job was counted. */
  ghost predicate Recorded(c: Session, id: string, status: TerminalStatus, obs: Observation, started: Option<bool>)
    reads c
  {
    && c.Stored(id, status)
    && (obs.resultPath != "" ==> c.s.db.jobs[id].files.result == Some(obs.resultPath))
    && (obs.stdoutPath != "" ==> c.s.db.jobs[id].files.stdout == Some(obs.stdoutPath))
    && (obs.stderrPath != "" ==> c.s.db.jobs[id].files.stderr == Some(obs.stderrPath))
    && (obs.finishedAt != 0 ==> c.s.db.jobs[id].finishedAt == Some(obs.finishedAt))
    && (id in c.s.history.reversed <==> started == Some(false) && c.s.db.jobs[id].attempt.scope.Some?)
  }

  /** finalizeObservedTerminal, FinalizeOwnedObservation's last step */
  method FinalizeObserved(c: Session, id: string, obs: Observation, status: TerminalStatus, workStarted: Option<bool>)
    returns (reply: Reply, result: Finalization)
    requires c.Valid()
    modifies c, c.store, c.ledger
    ensures c.Valid() && c.Mine() <= old(c.Mine()) && Steady(old(c.s), c.s, c.me.instanceId)
    ensures reply != Lost && (reply == Fine ==> (result.finalized || result.ownershipLost) && id !in c.Mine())
    ensures result.status == status && (result.finalized ==> Recorded(c, id, status, obs, workStarted))
    ensures reply == Broken ==> !result.finalized
    ensures c.ledger.finals == if result.finalized then old(c.ledger.finals)[id := result.status] else old(c.ledger.finals)
  {
    var message := c.Word();
    var finished := if obs.finishedAt == 0 then c.s.clock else obs.finishedAt;
    reply := c.FinalizeOwned(id, JobFinalize(status, message, obs.resultPath, obs.stdoutPath, obs.stderrPath, finished, workStarted));
    result := Finalization(status, reply == Fine, reply == Lost);
    if reply == Lost {
      reply := Fine;
    }
  }

  /** work_started in the result file: absent, unreadable, or a boolean */
  method WorkStarted(c: Session) returns (started: Option<bool>)
    requires c.Valid()
    modifies c`asked
    ensures c.Valid()
  {
    var found := c.Chance();
    var value := c.Chance();
    started := if found then Some(value) else None;
  }

  /** FinalizeOwnedObservation: an observation that is not terminal, or of a row without launch evidence, changes nothing. */
  method FinalizeOwnedObservation(c: Session, id: string, job: Job, obs: Observation)
    returns (reply: Reply, result: Finalization, ghost started: Option<bool>)
    requires c.Valid()
    modifies c, c.store, c.ledger
    ensures c.Valid() && c.Mine() <= old(c.Mine()) && Steady(old(c.s), c.s, c.me.instanceId)
    ensures reply != Lost
    ensures reply == Fine && (result.finalized || result.ownershipLost) ==> id !in c.Mine()
    ensures reply == Fine ==>
              (result.finalized || result.ownershipLost
               <==> HasLaunchRecord(job) && obs.state in {RunExited, RunFailed, RunTimedOut, RunCancelled})
    ensures obs.state in {RunStarting, RunRunning, RunUnknown} ==> !result.finalized && c.s == old(c.s)
    ensures result.finalized && obs.state == RunExited ==> (c.Stored(id, Succeeded) <==> obs.exitCode == Some(0))
    ensures result.finalized && obs.state == RunExited && obs.exitCode != Some(0) ==> c.Stored(id, Failed)
    ensures result.finalized && obs.state in {RunFailed, RunTimedOut} ==> c.Stored(id, Failed)
    ensures result.finalized && obs.state == RunCancelled ==> c.Stored(id, Cancelled)
    ensures result.finalized ==> Recorded(c, id, result.status, obs, started)
    ensures started.Some? ==> obs.resultPath != ""
    ensures c.ledger.finals == if result.finalized then old(c.ledger.finals)[id := result.status] else old(c.ledger.finals)
  {
    started := None;
    var status := StatusForObservation(obs);
    if !HasLaunchRecord(job) || status.None? {
      return Fine, KEPT, None;
    }
    var reported: Option<bool> := None;
    if obs.resultPath != "" {
      reported := WorkStarted(c);
    }
    started := reported;
    reply, result := FinalizeObserved(c, id, obs, status.value, reported);
  }

  /** What the way from an observation to the final status came across: whether the result file was unreadable, whether the
      issue could be loaded, how applying the final action ended, the action, whether a result file was merged into it, the
      transition counted if the labels changed, and what the result file said about work having started. */
  datatype Ending = Ending(unreadable: bool, loaded: bool, applied: Reply, action: ActionShape, merged: bool,
                           changed: bool, transitions: nat, started: Option<bool>)

  /** The final action is run only under GitHub, for a known route, and not for a cancelled run. */
  predicate Acts(cfg: Config, routeKnown: bool, status: TerminalStatus)
  {
    cfg.github && routeKnown && status != Cancelled
  }

  /** The status a run ends with, given what was observed and what was come across. */
  predicate EndsAs(cfg: Config, routeKnown: bool, observed: TerminalStatus, e: Ending, status: TerminalStatus)
  {
    var read: TerminalStatus := if e.unreadable then Failed else observed;
    && (Acts(cfg, routeKnown, read) || !e.loaded)
    && (status == Dead <==> Acts(cfg, routeKnown, read) && e.loaded && e.applied == Fine && OverTransitions(cfg, e.changed, e.transitions))
    && (Acts(cfg, routeKnown, read) && (!e.loaded || e.applied != Fine) ==> status == Failed)
    && (status != Dead && (Acts(cfg, routeKnown, read) ==> e.loaded && e.applied == Fine) ==> status == read)
  }

  /** Merging the action of a result file may change which side effects there are. */
  method Fused(c: Session, base: ActionShape, found: bool) returns (action: ActionShape)
    requires c.Valid()
    modifies c`asked
    ensures c.Valid() && (!found ==> action == base)
  {
    action := base;
    if found {
      var removes := c.Chance();
      var adds := c.Chance();
      var comments := c.Chance();
      action := ActionShape(removes, adds, comments);
    }
  }

  /** The final action and the transition limit. */
  method ApplyFinally(c: Session, id: string, issueKey: string, observed: TerminalStatus, action: ActionShape, settings: Settings)
    returns (reply: Reply, status: TerminalStatus, ghost applied: Reply, ghost changed: bool, ghost transitions: nat)
    requires c.Valid() && c.cfg.github
    modifies c, c.store, c.log
    ensures c.Valid() && c.Mine() <= old(c.Mine()) && Steady(old(c.s), c.s, c.me.instanceId)
    ensures reply == Lost ==> id !in c.Mine()
    ensures reply == Fine ==>
              status == if applied != Fine then Failed else if OverTransitions(c.cfg, changed, transitions) then Dead else observed
    ensures reply == Fine && applied == Fine ==>
              c.log.deeds == WithActions(c.cfg, old(c.log.deeds), id, action, changed, transitions, settings)
  {
    var dead;
    reply, dead, changed, transitions := ApplyAndCount(c, id, issueKey, action, settings);
    applied := reply;
    status := if reply == Broken then Failed else if dead then Dead else observed;
    reply := if reply == Broken then Fine else reply;
  }

  /** The same with the lease renewed first, and the status that is left then. */
  method ActFinally(c: Session, id: string, issueKey: string, observed: TerminalStatus, action: ActionShape, settings: Settings)
    returns (reply: Reply, status: TerminalStatus, ghost applied: Reply, ghost changed: bool, ghost transitions: nat)
    requires c.Valid() && c.cfg.github
    modifies c, c.store, c.log
    ensures c.Valid() && c.Mine() <= old(c.Mine()) && Steady(old(c.s), c.s, c.me.instanceId)
    ensures reply == Lost ==> id !in c.Mine()
    ensures reply == Fine ==>
              status == if applied != Fine then Failed else if OverTransitions(c.cfg, changed, transitions) then Dead else observed
    ensures reply == Fine && applied == Fine ==>
              c.log.deeds == WithActions(c.cfg, old(c.log.deeds), id, action, changed, transitions, settings)
  {
    status, changed, transitions := observed, false, 0;
    reply := c.Renew(id);
    applied := reply;
    if reply == Fine {
      reply, status, applied, changed, transitions := ApplyFinally(c, id, issueKey, observed, action, settings);
    }
  }

  /** The success or failure action before the row is finalized, and the status that is left then. */
  method FinalActions(c: Session, id: string, observed: TerminalStatus, found: bool, settings: Settings)
    returns (reply: Reply, status: TerminalStatus, ghost e: Ending)
    requires c.Valid() && c.cfg.github && observed != Cancelled && observed != Dead
    modifies c, c.store, c.log
    ensures c.Valid() && c.Mine() <= old(c.Mine()) && Steady(old(c.s), c.s, c.me.instanceId)
    ensures reply == Lost ==> id !in c.Mine()
    ensures reply == Fine ==> EndsAs(c.cfg, true, observed, e, status)
    ensures !e.unreadable && e.merged == found && e.started.None?
    ensures !found && e.loaded ==> e.action == if observed == Succeeded then settings.onSuccess else settings.onFailure
    ensures reply == Fine && e.loaded && e.applied == Fine ==>
              c.log.deeds == WithActions(c.cfg, old(c.log.deeds), id, e.action, e.changed, e.transitions, settings)
  {
    var issueKey := Row(c.s.db, id).task.issueKey;
    var issue := c.Elsewhere();  // GetIssue
    if issue != Fine {
      return Fine, Failed, Ending(false, false, Fine, settings.onFailure, found, false, 0, None);
    }
    var action := Fused(c, if observed == Succeeded then settings.onSuccess else settings.onFailure, found);
    ghost var applied, changed, transitions;
    reply, status, applied, changed, transitions := ActFinally(c, id, issueKey, observed, action, settings);
    e := Ending(false, true, applied, action, found, changed, transitions, None);
  }

  /** What the result file changes: under GitHub an unreadable one makes the run a failure. */
  method ReadResult(c: Session, obs: Observation, observed: TerminalStatus)
    returns (status: TerminalStatus, started: Option<bool>, found: bool, ghost unreadable: bool)
    requires c.Valid()
    modifies c`asked
    ensures c.Valid() && status == if unreadable then Failed else observed
    ensures found || unreadable || started.Some? ==> obs.resultPath != ""
    ensures unreadable ==> c.cfg.github && started.None? && !found
  {
    status, started, found, unreadable := observed, None, false, false;
    if obs.resultPath != "" {
      started := WorkStarted(c);
      var readable := c.Chance();
      if readable || !c.cfg.github {
        found := c.Chance();
      } else {
        status, started, unreadable := Failed, None, true;
      }
    }
  }

  /** The result file and the final action: the status to store, and whether work started. */
  method SettleStatus(c: Session, id: string, obs: Observation, observed: TerminalStatus, routeKnown: bool, settings: Settings)
    returns (reply: Reply, status: TerminalStatus, started: Option<bool>, ghost e: Ending)
    requires c.Valid() && observed != Dead
    modifies c, c.store, c.log
    ensures c.Valid() && c.Mine() <= old(c.Mine()) && Steady(old(c.s), c.s, c.me.instanceId)
    ensures reply == Lost ==> id !in c.Mine()
    ensures reply == Fine ==> EndsAs(c.cfg, routeKnown, observed, e, status)
    ensures e.started == started && (e.unreadable || e.merged || started.Some? ==> obs.resultPath != "")
    ensures e.unreadable ==> c.cfg.github && started.None? && !e.merged
    ensures !e.merged && e.loaded ==>
              e.action == if observed == Succeeded && !e.unreadable then settings.onSuccess else settings.onFailure
    ensures reply == Fine && e.loaded && e.applied == Fine ==>
              c.log.deeds == WithActions(c.cfg, old(c.log.deeds), id, e.action, e.changed, e.transitions, settings)
  {
    var found;
    ghost var unreadable;
    status, started, found, unreadable := ReadResult(c, obs, observed);
    if !c.cfg.github || status == Cancelled || !routeKnown {
      return Fine, status, started, Ending(unreadable, false, Fine, settings.onFailure, found, false, 0, started);
    }
    reply, status, e := FinalActions(c, id, status, found, settings);
    e := e.(unreadable := unreadable, started := started);
  }

  /** The way from a terminal observation to the finalized row. */
  method FinalizeTerminal(c: Session, id: string, obs: Observation, observed: TerminalStatus, routeKnown: bool, settings: Settings)
    returns (reply: Reply, result: Finalization, ghost e: Ending)
    requires c.Valid() && observed != Dead
    modifies c, c.store, c.log, c.ledger
    ensures c.Valid() && c.Mine() <= old(c.Mine()) && Steady(old(c.s), c.s, c.me.instanceId)
    ensures reply != Lost && (reply == Fine ==> (result.finalized || result.ownershipLost) && id !in c.Mine())
    ensures result.finalized ==>
              Recorded(c, id, result.status, obs, e.started) && EndsAs(c.cfg, routeKnown, observed, e, result.status)
    ensures e.unreadable || e.merged || e.started.Some? ==> obs.resultPath != ""
    ensures e.unreadable ==> c.cfg.github && e.started.None? && !e.merged
    ensures !e.merged && e.loaded ==>
              e.action == if observed == Succeeded && !e.unreadable then settings.onSuccess else settings.onFailure
    ensures result.finalized && e.loaded && e.applied == Fine ==>
              c.log.deeds == WithActions(c.cfg, old(c.log.deeds), id, e.action, e.changed, e.transitions, settings)
    ensures reply == Broken ==> !result.finalized
    ensures c.ledger.finals == if result.finalized then old(c.ledger.finals)[id := result.status] else old(c.ledger.finals)
  {
    var status, started;
    reply, status, started, e := SettleStatus(c, id, obs, observed, routeKnown, settings);
    if reply == Lost {
      return Fine, Finalization(status, false, true), e;
    }
    if reply == Broken {
      return Broken, KEPT, e;
    }
    reply, result := FinalizeObserved(c, id, obs, status, started);
  }

  /** FinalizeOwnedObservationWithLifecycle: a terminal observation ends with the row finalized or no longer this runner's,
      unless a call failed. The row is stored with the status observed, or with a worse one when a final action fails or
      the transition limit is passed. */
  method FinalizeWithLifecycle(c: Session, id: string, obs: Observation, routeKnown: bool, settings: Settings)
    returns (reply: Reply, result: Finalization, ghost e: Ending)
    requires c.Valid()
    modifies c, c.store, c.log, c.ledger
    ensures c.Valid() && c.Mine() <= old(c.Mine()) && Steady(old(c.s), c.s, c.me.instanceId)
    ensures reply != Lost
    ensures reply == Fine ==>
              ((result.finalized || result.ownershipLost) <==> obs.state in {RunExited, RunFailed, RunTimedOut, RunCancelled})
    ensures reply == Fine && obs.state in {RunExited, RunFailed, RunTimedOut, RunCancelled} ==> id !in c.Mine()
    ensures obs.state in {RunStarting, RunRunning, RunUnknown} ==> !result.finalized && c.s == old(c.s)
    ensures result.finalized ==>
              && Recorded(c, id, result.status, obs, e.started) && StatusForObservation(obs).Some?
              && EndsAs(c.cfg, routeKnown, StatusForObservation(obs).value, e, result.status)
    ensures e.unreadable || e.merged || e.started.Some? ==> obs.resultPath != ""
    ensures e.unreadable ==> c.cfg.github && e.started.None? && !e.merged
    ensures !c.cfg.github && result.finalized ==>
              && (obs.state == RunExited ==> (c.Stored(id, Succeeded) <==> obs.exitCode == Some(0)))
              && (obs.state == RunExited && obs.exitCode != Some(0) ==> c.Stored(id, Failed))
              && (obs.state in {RunFailed, RunTimedOut} ==> c.Stored(id, Failed))
              && (obs.state == RunCancelled ==> c.Stored(id, Cancelled))
    ensures !e.merged && e.loaded ==>
              e.action == if obs.state == RunExited && obs.exitCode == Some(0) && !e.unreadable then settings.onSuccess
                          else settings.onFailure
    ensures result.finalized && e.loaded && e.applied == Fine ==>
              c.log.deeds == WithActions(c.cfg, old(c.log.deeds), id, e.action, e.changed, e.transitions, settings)
    ensures reply == Broken ==> !result.finalized
    ensures c.ledger.finals == if result.finalized then old(c.ledger.finals)[id := result.status] else old(c.ledger.finals)
  {
    var terminal := StatusForObservation(obs);
    if terminal.None? {
      return Fine, KEPT, Ending(false, false, Fine, settings.onFailure, false, false, 0, None);
    }
    reply, result, e := FinalizeTerminal(c, id, obs, terminal.value, routeKnown, settings);
  }
}
