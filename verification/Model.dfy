/** The queue's rows and records. A time is a count of nanoseconds; zero is Go's zero time, stored as ''. */
module Model {
  import opened Wrappers

  type Time = nat

  datatype Status = Pending | Running | Succeeded | Failed | Skipped | Dead | Cancelled

  predicate IsTerminal(status: Status)
  {
    !status.Pending? && !status.Running?
  }

  /** A status a job is finalized with. */
  type TerminalStatus = status: Status | IsTerminal(status) witness Failed

  /** Column launch_state; its text "running" is Active here. */
  datatype LaunchState = Preparing | Launching | Active | Unknown

  /** Columns fixed when the job is enqueued. */
  datatype Task = Task(issueKey: string, routeName: string, kind: string, priority: int,
                       dedupeKey: string, availableAt: Time, createdAt: Time)

  /** Columns that describe the supervised process. */
  datatype Launch = Launch(kind: Option<string>, supervisorId: Option<string>, token: Option<string>,
                           state: Option<LaunchState>, pgid: Option<int>, processStartedAt: Option<Time>,
                           metadataPath: Option<string>, specPath: Option<string>, timeoutAt: Option<Time>)

  const NO_LAUNCH := Launch(None, None, None, None, None, None, None, None, None)

  datatype Files = Files(context: Option<string>, result: Option<string>,
                         stdout: Option<string>, stderr: Option<string>)

  /** Columns attempts, attempt_generation and attempt_scope_hash. */
  datatype Attempt = Attempt(count: int, generation: int, scope: Option<string>)

  datatype Job = Job(task: Task, status: Status, attempt: Attempt,
                     lockedBy: Option<string>, owner: Option<string>, leaseUntil: Option<Time>,
                     pid: Option<int>, launch: Launch, files: Files,
                     startedAt: Option<Time>, finishedAt: Option<Time>,
                     lastError: Option<string>, updatedAt: Time)

  datatype Identity = Identity(runnerId: string, instanceId: string)

  datatype Heartbeat = Heartbeat(runnerId: string, pid: int, at: Time)

  datatype AttemptKey = AttemptKey(issueKey: string, generation: int, routeName: string, scope: string)

  datatype IssueState = IssueState(generation: int, transitions: nat)

  datatype LaunchSpecRecord = LaunchSpecRecord(supervisorKind: string, token: string, specPath: string,
                                               files: Files, metadataPath: string, timeoutAt: Time)

  datatype LaunchRecord = LaunchRecord(supervisorKind: string, supervisorId: string, token: string,
                                       pid: int, pgid: int, processStartedAt: Time, metadataPath: string,
                                       specPath: string, contextPath: string, resultPath: string,
                                       stdoutPath: string, stderrPath: string, timeoutAt: Time)

  datatype JobFinalize = JobFinalize(status: TerminalStatus, lastError: string, resultPath: string,
                                     stdoutPath: string, stderrPath: string, finishedAt: Time,
                                     workStarted: Option<bool>)

  /** The tables the protocol runs on. */
  datatype Db = Db(jobs: map<string, Job>, heartbeats: map<string, Heartbeat>,
                   attempts: map<AttemptKey, nat>, issues: map<string, IssueState>)

  const EMPTY_DB := Db(map[], map[], map[], map[])

  /** How a store call ends: committed, one of the two ownership losses, or refused arguments. */
  datatype Outcome = Done | NotOwner | LostLease | Invalid

  /** unicode.IsSpace, as strings.TrimSpace uses it. */
  predicate IsSpace(c: char)
  {
    var n := c as int;
    9 <= n <= 13 || n == 32 || n == 0x85 || n == 0xA0 || n == 0x1680 || 0x2000 <= n <= 0x200A
    || n == 0x2028 || n == 0x2029 || n == 0x202F || n == 0x205F || n == 0x3000
  }

  /** strings.TrimSpace(s) == "" */
  predicate Blank(s: string)
  {
    forall i :: 0 <= i < |s| ==> IsSpace(s[i])
  }

  /** sql.NullString.String */
  function Text(column: Option<string>): string
  {
    if column.Some? then column.value else ""
  }

  /** nullString and NULLIF(?, '') */
  function NullIfEmpty(s: string): Option<string>
  {
    if s == "" then None else Some(s)
  }

  /** COALESCE(update, current) */
  function Coalesce<T>(update: Option<T>, current: Option<T>): Option<T>
  {
    if update.Some? then update else current
  }

  /** nullTime */
  function NullIfZero(t: Time): Option<Time>
  {
    if t == 0 then None else Some(t)
  }

  /** column IS NOT NULL AND column != '' */
  predicate Present(column: Option<string>)
  {
    column.Some? && column.value != ""
  }

  function StringSet(values: seq<string>): set<string>
  {
    set v | v in values
  }
}
