/** internal/workflow/workflow.go and observe.go: how an observation of a supervised process is read. */
module Workflow {
  import opened Wrappers
  import opened Model

  datatype RunState = RunStarting | RunRunning | RunExited | RunFailed | RunTimedOut | RunCancelled | RunUnknown

  datatype Observation = Observation(state: RunState, exitCode: Option<int>, error: string,
                                     finishedAt: Time, resultPath: string, stdoutPath: string, stderrPath: string)

  datatype Decision = KeepRunning | DecideSucceeded | DecideFailed | DecideCancelled | DecideUnknown

  function ObservationToDecision(obs: Observation): Decision
  {
    match obs.state
    case RunStarting => KeepRunning
    case RunRunning => KeepRunning
    case RunExited => if obs.exitCode == Some(0) then DecideSucceeded else DecideFailed
    case RunFailed => DecideFailed
    case RunTimedOut => DecideFailed
    case RunCancelled => DecideCancelled
    case RunUnknown => DecideUnknown
  }

  function StatusForObservation(obs: Observation): Option<TerminalStatus>
  {
    match ObservationToDecision(obs)
    case DecideSucceeded => Some(Succeeded)
    case DecideFailed => Some(Failed)
    case DecideCancelled => Some(Cancelled)
    case _ => None
  }

  const KIND_WRAPPER := "wrapper"

  /** DurableLaunchRecord: the row carries evidence a supervisor can act on. */
  predicate HasLaunchRecord(job: Job)
  {
    && job.status.Running? && job.launch.kind == Some(KIND_WRAPPER) && Present(job.launch.token)
    && job.launch.state in {Some(Launching), Some(Active)}
    && (Present(job.launch.metadataPath) || Present(job.launch.supervisorId) || (job.pid.Some? && job.pid.value > 0))
  }
}
