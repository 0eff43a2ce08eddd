/** internal/workflow/launch.go: from a counted claim to a supervised process. Every store call is a point where other
    runners interfere. */
module Launching {
  import opened Wrappers
  import opened Model
  import opened Cluster
  import opened Holding
  import opened Workflow
  import opened Session

  function Terminal(status: TerminalStatus, message: string, now: Time): JobFinalize
  {
    JobFinalize(status, message, "", "", "", now, None)
  }

  /** The route's timeout, or thirty minutes when it sets none. */
  function Timeout(configured: int): (timeout: Time)
    ensures timeout > 0
  {
    if configured <= 0 then 30 * 60 * 1_000_000_000 else configured
  }

  /** The paths of one launch. */
  function SpecIn(dir: string, token: string, timeoutAt: Time): (spec: LaunchSpecRecord)
    ensures spec.token == token && spec.supervisorKind == KIND_WRAPPER && spec.metadataPath != ""
    ensures spec.files.context.Some? && spec.files.result.Some? && spec.files.stdout.Some? && spec.files.stderr.Some?
  {
    LaunchSpecRecord(KIND_WRAPPER, token, dir + "/" + token + "-spec.json",
                     Files(Some(dir + "/context.json"), Some(dir + "/result.json"), Some(dir + "/stdout.log"), Some(dir + "/stderr.log")),
                     dir + "/" + token + "-run.json", timeoutAt)
  }

  /** Compensation: the program drops the answer, whatever it is. */
  method FinalizeLaunch(c: Session, id: string, status: TerminalStatus, message: string) returns (ghost answer: Reply)
    requires c.Valid()
    modifies c, c.store, c.ledger
    ensures c.Valid() && c.Free() && c.Mine() <= old(c.Mine())
    ensures c.ledger.asked == old(c.ledger.asked) + [id]
    ensures answer != Broken ==> id !in c.Mine()
    ensures answer == Fine ==> c.Stored(id, status)
  {
    var reply := c.FinalizeOwned(id, Terminal(status, message, c.s.clock));
    answer := reply;
    c.LeaveJob();
  }

  /** What became of a launch: the supervisor's answer, the record to store, and the answers to a cancellation and to a
      compensating finalization when there was one. */
  datatype Course = Course(launched: Reply, stored: LaunchRecord, cancelled: Option<Reply>, compensation: Option<Reply>)

  const NO_RECORD := LaunchRecord("", "", "", 0, 0, 0, "", "", "", "", "", "", 0)

  /** The row is running under the wrapper, with a token and the place of its metadata. */
  predicate Supervised(job: Job)
  {
    && job.status.Running? && job.launch.state == Some(Active) && job.launch.kind == Some("wrapper")
    && Present(job.launch.token) && Present(job.launch.metadataPath)
  }

  /** An ownership loss is reported only when the row is no longer this runner's, so no held row is dropped silently;
      success means the job was launched exactly once and its row holds the evidence another runner needs to recover it. */
  method LaunchClaimedWrapper(c: Session, id: string) returns (reply: Reply)
    requires c.Valid() && (c.At(id, Granted) || (!c.cfg.github && c.At(id, Fresh)))
    modifies c, c.store, c.signals, c.ledger
    ensures c.Valid() && c.Free() && c.Mine() <= old(c.Mine())
    ensures reply == Lost ==> id !in c.Mine()
    ensures reply != Broken ==> c.ledger.finals == old(c.ledger.finals)
    ensures reply == Fine ==> c.s.history.launches[id] == 1
    ensures reply == Fine ==> id in c.s.db.jobs && HasLaunchRecord(c.s.db.jobs[id]) && Supervised(c.s.db.jobs[id])
  {
    ghost var written;
    reply, written := PersistAndLaunch(c, id);
    c.LeaveJob();
    Protocol.AtMostOneLaunch(c.cfg, c.trace, id);
  }

  method PersistAndLaunch(c: Session, id: string) returns (reply: Reply, ghost written: Reply)
    requires c.Valid() && (c.At(id, Granted) || (!c.cfg.github && c.At(id, Fresh)))
    modifies c, c.store, c.signals, c.ledger
    ensures c.Valid() && c.Mine() <= old(c.Mine())
    ensures written == Broken ==> reply == Broken && c.ledger.asked == old(c.ledger.asked) + [id]
    ensures reply == Lost ==> id !in c.Mine()
    ensures reply != Broken ==> c.ledger.finals == old(c.ledger.finals)
    ensures reply == Fine ==> c.s.history.launches[id] >= 1
    ensures reply == Fine ==> id in c.s.db.jobs && HasLaunchRecord(c.s.db.jobs[id]) && Supervised(c.s.db.jobs[id])
  {
    var now := c.s.clock;
    written := Fine;
    var usable := c.Chance();  // a command, a valid token, absolute paths
    if !usable {
      return Broken, Fine;
    }
    var token := c.Word();
    var dir := c.Word();
    var context := c.Elsewhere();  // runner.WriteContext
    written := context;
    if context != Fine {
      ghost var answer := FinalizeLaunch(c, id, Failed, "prepare wrapper launch");
      return Broken, context;
    }
    var configured := c.Number();  // the route's timeout
    reply := CommitAndLaunch(c, id, SpecIn(dir, token, now + Timeout(configured)));
  }

  /** From the launch spec on. */
  method CommitAndLaunch(c: Session, id: string, spec: LaunchSpecRecord) returns (reply: Reply)
    requires c.Valid() && (c.At(id, Granted) || (!c.cfg.github && c.At(id, Fresh)))
    requires spec.metadataPath != "" && spec.supervisorKind == KIND_WRAPPER
    requires spec.files.context.Some? && spec.files.result.Some? && spec.files.stdout.Some? && spec.files.stderr.Some?
    modifies c, c.store, c.signals, c.ledger
    ensures c.Valid() && c.Mine() <= old(c.Mine())
    ensures reply == Lost ==> id !in c.Mine()
    ensures reply != Broken ==> c.ledger.finals == old(c.ledger.finals)
    ensures reply == Fine ==> c.s.history.launches[id] >= 1
    ensures reply == Fine ==> id in c.s.db.jobs && HasLaunchRecord(c.s.db.jobs[id]) && Supervised(c.s.db.jobs[id])
  {
    reply := c.PersistSpec(id, spec);
    if reply != Fine {
      return;
    }
    reply := c.MarkLaunching(id, spec.token);
    if reply != Fine {
      return;
    }
    ghost var answered, course;
    reply, answered, course := LaunchAndRecord(c, id, spec);
  }

  /** The record that is stored: what the supervisor answered, under the paths of the spec. */
  predicate Persisted(stored: LaunchRecord, answered: LaunchRecord, spec: LaunchSpecRecord)
  {
    && stored.supervisorKind == KIND_WRAPPER && stored.supervisorId == answered.supervisorId && stored.token == spec.token
    && stored.pid == answered.pid && stored.pgid == answered.pgid && stored.processStartedAt == answered.processStartedAt
    && stored.metadataPath == spec.metadataPath && stored.specPath == spec.specPath
    && Some(stored.contextPath) == spec.files.context && Some(stored.resultPath) == spec.files.result
    && Some(stored.stdoutPath) == spec.files.stdout && Some(stored.stderrPath) == spec.files.stderr
    && (answered.timeoutAt != 0 ==> stored.timeoutAt == answered.timeoutAt)
    && (answered.timeoutAt == 0 ==> stored.timeoutAt == spec.timeoutAt)
  }

  /** From the committed row on. A failed launch is finalized; a launch whose record cannot be stored is cancelled, and
      finalized when that worked and the row may still be this runner's. */
  method LaunchAndRecord(c: Session, id: string, spec: LaunchSpecRecord)
    returns (reply: Reply, ghost answered: LaunchRecord, ghost course: Course)
    requires c.Valid() && c.At(id, Committed(spec.token)) && spec.metadataPath != ""
    requires spec.files.context.Some? && spec.files.result.Some? && spec.files.stdout.Some? && spec.files.stderr.Some?
    modifies c, c.store, c.signals, c.ledger
    ensures c.Valid() && c.Mine() <= old(c.Mine())
    ensures reply == Lost ==> id !in c.Mine()
    ensures reply != Broken ==> c.ledger.finals == old(c.ledger.finals)
    ensures reply == Fine ==> course.launched == Fine && c.s.history.launches[id] >= 1
    ensures reply == Fine ==>
              id in c.s.db.jobs && ShowsRecord(c.s.db.jobs[id], course.stored) && Persisted(course.stored, answered, spec)
    ensures c.signals.cancelled == old(c.signals.cancelled) + (if course.launched == Fine && reply != Fine then [id] else [])
    ensures course.launched != Fine ==> reply == Broken && course.compensation.Some?
    ensures course.launched == Fine ==> (course.compensation.Some? <==> reply == Broken && course.cancelled == Some(Fine))
    ensures c.ledger.asked == old(c.ledger.asked) + (if course.compensation.Some? then [id] else [])
    ensures course.compensation.Some? && course.compensation.value != Broken ==> id !in c.Mine()
    ensures course.compensation == Some(Fine) ==> c.Stored(id, Failed) || c.Stored(id, Cancelled)
  {
    var record;
    reply, record := c.CallLaunch(id, spec.token);
    answered, course := record, Course(reply, NO_RECORD, None, None);
    if reply == Fine {
      reply, course := RecordOrCancel(c, id, spec, record);
    } else {
      var cancelled := c.Chance();
      ghost var answer := FinalizeLaunch(c, id, if cancelled then Cancelled else Failed, "wrapper launch failed");
      course := course.(compensation := Some(answer));
    }
  }

  method RecordOrCancel(c: Session, id: string, spec: LaunchSpecRecord, record: LaunchRecord)
    returns (reply: Reply, ghost course: Course)
    requires c.Valid() && c.At(id, Launched(spec.token)) && spec.metadataPath != ""
    requires spec.files.context.Some? && spec.files.result.Some? && spec.files.stdout.Some? && spec.files.stderr.Some?
    modifies c, c.store, c.signals, c.ledger
    ensures c.Valid() && c.Mine() <= old(c.Mine())
    ensures course.launched == Fine && (reply == Lost ==> id !in c.Mine())
    ensures reply != Broken ==> c.ledger.finals == old(c.ledger.finals)
    ensures (course.cancelled.Some? <==> reply != Fine)
            && (course.compensation.Some? <==> reply == Broken && course.cancelled == Some(Fine))
    ensures reply == Fine ==>
              && old(c.s).history.launches <= c.s.history.launches
              && id in c.s.db.jobs && ShowsRecord(c.s.db.jobs[id], course.stored) && Persisted(course.stored, record, spec)
    ensures c.signals.cancelled == old(c.signals.cancelled) + (if reply != Fine then [id] else [])
    ensures c.ledger.asked == old(c.ledger.asked) + (if course.compensation.Some? then [id] else [])
    ensures course.compensation.Some? && course.compensation.value != Broken ==> id !in c.Mine()
    ensures course.compensation == Some(Fine) ==> c.Stored(id, Failed) || c.Stored(id, Cancelled)
  {
    var persist := record.(supervisorKind := KIND_WRAPPER, token := spec.token, metadataPath := spec.metadataPath,
                           specPath := spec.specPath, contextPath := Text(spec.files.context),
                           resultPath := Text(spec.files.result), stdoutPath := Text(spec.files.stdout),
                           stderrPath := Text(spec.files.stderr),
                           timeoutAt := if record.timeoutAt == 0 then spec.timeoutAt else record.timeoutAt);
    course := Course(Fine, persist, None, None);
    reply := c.PersistRecord(id, persist);
    if reply == Fine {
      return;
    }
    var cleanup := c.Cancel(id);
    course := course.(cancelled := Some(cleanup));
    if reply == Broken && cleanup == Fine {
      var cancelled := c.Chance();
      ghost var answer := FinalizeLaunch(c, id, if cancelled then Cancelled else Failed, "persist wrapper launch record");
      course := course.(compensation := Some(answer));
    }
  }
}
