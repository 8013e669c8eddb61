/** Every way a worker process can end: placement refused, protocol failure in any phase, timeout, cancellation,
    a supervisor dropped at any await, or success (src/wasix_worker.rs). */
module Supervisor {

  /** How an awaited operation comes back: with a value, with an error, or not at all because the future that
      contained it was cancelled or timed out. */
  datatype Awaited = Succeeded | Failed | Interrupted

  /** How waiting for the child comes back, and the status if it does. */
  datatype Ending = Ending(wait: Awaited, clean: bool)

  /** What the world does in one operation: whether the pipes of the child can be taken; the exchange before the end of
      the output; the read that must find that end; the wait for the child; the attestation of a captured journal; the
      short wait for a worker that failed, and the wait for one that was killed.  A supervisor's own task may be dropped
      while it is in the exchange, while it observes a failed worker, or while it waits for the diagnostics. */
  datatype Course = Course(
    piped: bool,
    exchange: Awaited,
    drained: Awaited,
    exit: Ending,
    attested: bool,
    observation: Ending,
    killed: Ending,
    droppedInExchange: bool,
    droppedObserving: bool,
    droppedAtEnd: bool)

  /** What a supervisor reports, or that its own task was dropped. */
  datatype Outcome = Success | Failure | TaskDropped

  class WorkerProcess {
    /** `WorkerProcess.active`: the drop handler must still act. */
    var active: bool
    /** The process group was sent SIGKILL. */
    var groupKilled: bool
    /** A signal was sent to the group after its leader had been waited for. */
    var lateSignal: bool
    /** The child was sent SIGKILL by `start_kill`. */
    var childKilled: bool
    /** The child was waited for. */
    var waited: bool
    /** `wait` was called and returned an error. */
    var waitFailed: bool
    /** The status the wait reported was a success. */
    var exitedCleanly: bool
    /** Somebody else will wait for the child: a reaper task, or the runtime's orphan queue. */
    var waitPending: bool

    /** A worker under supervision that nobody has signalled or waited for. */
    predicate Live()
      reads this
    {
      active && !groupKilled && !lateSignal && !childKilled && !waited && !waitFailed && !waitPending
    }

    /** Its group was killed and it was waited for or a wait is pending; if it is still armed, then it was killed itself
        and a wait is pending. */
    predicate Disposed()
      reads this
    {
      && groupKilled
      && (waited || waitPending)
      && (active ==> childKilled && waitPending)
    }

    /** The group was signalled after the reaping of its leader exactly if nobody had to kill the leader. */
    predicate SignalOrder()
      reads this
    {
      lateSignal <==> !childKilled
    }

    constructor ()
      ensures Live()
    {
      active := true;
      groupKilled, lateSignal, childKilled := false, false, false;
      waited, waitFailed, exitedCleanly, waitPending := false, false, false, false;
    }

    method KillTree()
      modifies this`groupKilled, this`lateSignal
      ensures groupKilled == (old(groupKilled) || active)
      ensures lateSignal == (old(lateSignal) || (active && waited))
    {
      if !active { return; }
      groupKilled := true;
      if waited { lateSignal := true; }
    }

    method Disarm()
      modifies this`active
      ensures !active
    {
      active := false;
    }

    method StartKill()
      modifies this`childKilled
      ensures childKilled
    {
      childKilled := true;
    }

    /** `child.wait().await`, which comes back as `ending` says. */
    method Wait(ending: Ending)
      modifies this`waited, this`waitFailed, this`exitedCleanly
      ensures waited == (old(waited) || ending.wait == Succeeded)
      ensures waitFailed == (old(waitFailed) || ending.wait == Failed)
      ensures exitedCleanly == if ending.wait == Succeeded then ending.clean else old(exitedCleanly)
    {
      match ending.wait
      case Succeeded => waited, exitedCleanly := true, ending.clean;
      case Failed => waitFailed := true;
      case Interrupted =>
    }

    /** `Drop for WorkerProcess`; the child was spawned with `kill_on_drop`, so an unreaped child is queued. */
    method Drop()
      modifies this
      ensures active == old(active) && waited == old(waited) && waitFailed == old(waitFailed)
      ensures exitedCleanly == old(exitedCleanly)
      ensures groupKilled == (old(groupKilled) || active)
      ensures lateSignal == (old(lateSignal) || (active && waited))
      ensures childKilled == (old(childKilled) || active)
      ensures waitPending == (old(waitPending) || !waited)
    {
      KillTree();
      if active { StartKill(); }
      if !waited { waitPending := true; }
    }
  }

  /** How a successful operation leaves its worker. */
  predicate Finished(worker: WorkerProcess)
    reads worker
  {
    worker.waited && worker.exitedCleanly && !worker.active && !worker.childKilled
  }

  /** The placement policy of the configuration and its verdict; a panic in it counts as a rejection. */
  datatype Placement = NoPolicy | Accepts | Rejects

  /** `spawn_wasix_worker`: a worker is handed on only if there is no placement policy or it accepted the process. */
  method SpawnWorker(placement: Placement, course: Course) returns (worker: WorkerProcess, placed: bool)
    ensures fresh(worker)
    ensures placed <==> placement != Rejects
    ensures placed ==> worker.Live()
    ensures !placed ==> worker.Disposed() && worker.SignalOrder()
  {
    worker := new WorkerProcess();
    placed := placement != Rejects;
    if !placed {
      worker.KillTree();
      worker.StartKill();
      worker.Wait(course.killed);
      if course.killed.wait != Interrupted { worker.Disarm(); }
      worker.Drop();
    }
  }

  /** The worker ended its output, was waited for and exited with success. */
  predicate EndsWell(course: Course)
  {
    course.drained == Succeeded && course.exit == Ending(Succeeded, true)
  }

  /** `finish_worker_output` and `finish_checkpoint_capture_output`. */
  method FinishWorkerOutput(worker: WorkerProcess, course: Course) returns (r: Awaited)
    requires worker.Live()
    modifies worker
    ensures r == Succeeded <==> EndsWell(course)
    ensures r == Succeeded ==> worker.Disposed() && Finished(worker)
    ensures r != Succeeded ==> worker.active || worker.Disposed()
    ensures r == Interrupted ==> worker.active
    ensures worker.active ==> !worker.waited && !worker.waitPending && !worker.groupKilled && !worker.lateSignal
    ensures !worker.childKilled && (!worker.active ==> worker.lateSignal)
  {
    if course.drained != Succeeded { return course.drained; }
    worker.Wait(course.exit);
    if course.exit.wait != Succeeded { return course.exit.wait; }
    worker.KillTree();
    worker.Disarm();
    r := if worker.exitedCleanly then Succeeded else Failed;
  }

  /** The protocol part of every operation: the exchange before the worker's output is finished, any await of which may
      fail or be interrupted and none of which touches the process; the end of the output; and, for a capture, the
      attestation of the journal, which may refuse it. */
  method Perform(worker: WorkerProcess, attests: bool, course: Course) returns (r: Awaited)
    requires worker.Live()
    modifies worker
    ensures r == Succeeded <==> course.exchange == Succeeded && EndsWell(course) && (attests ==> course.attested)
    ensures r == Succeeded ==> worker.Disposed() && Finished(worker)
    ensures r != Succeeded ==> worker.active || worker.Disposed()
    ensures r == Interrupted ==> worker.active
    ensures worker.active ==> !worker.waited && !worker.waitPending && !worker.groupKilled && !worker.lateSignal
    ensures !worker.childKilled && (!worker.active ==> worker.lateSignal)
  {
    if course.exchange != Succeeded { return course.exchange; }
    r := FinishWorkerOutput(worker, course);
    if r == Succeeded && attests && !course.attested { r := Failed; }
  }

  /** `spawn_worker_reaper`: kill now and wait in a task of its own. */
  method SpawnReaper(worker: WorkerProcess)
    requires worker.active && !worker.waited && !worker.lateSignal
    modifies worker
    ensures worker.Disposed() && worker.SignalOrder() && worker.childKilled && !worker.waited
  {
    worker.KillTree();
    worker.StartKill();
    worker.waitPending := true;
  }

  /** The reaper's task, which may itself be dropped while it waits. */
  method ReaperTask(worker: WorkerProcess, course: Course)
    requires worker.Disposed() && worker.SignalOrder() && worker.childKilled && !worker.waited
    modifies worker
    ensures worker.Disposed() && worker.SignalOrder()
  {
    worker.Wait(course.killed);
    if course.killed.wait != Interrupted { worker.Disarm(); }
    worker.Drop();
  }

  /** `supervise_probe` and `supervise_checkpoint_transport`. */
  method SuperviseWithReaper(worker: WorkerProcess, course: Course) returns (outcome: Outcome)
    requires worker.Live()
    modifies worker
    ensures worker.Disposed() && worker.SignalOrder()
    ensures outcome == Success <==> course.exchange == Succeeded && EndsWell(course)
    ensures outcome == Success ==> Finished(worker)
    ensures outcome == TaskDropped ==> course.droppedInExchange
  {
    var r := Perform(worker, false, course);
    if r == Interrupted && course.droppedInExchange {
      worker.Drop();
      return TaskDropped;
    }
    if r != Succeeded && worker.active {
      SpawnReaper(worker);
      ReaperTask(worker, course);
    } else {
      worker.Drop();
    }
    outcome := if r == Succeeded then Success else Failure;
  }

  /** `observe_failed_worker_exit`: a short wait for a worker that may be exiting on its own. */
  method ObserveExit(worker: WorkerProcess, course: Course) returns (observed: bool)
    requires worker.active && !worker.waited && !worker.waitPending && !worker.groupKilled && !worker.lateSignal
    requires !worker.childKilled
    modifies worker
    ensures worker.active && !worker.waitPending && !worker.groupKilled && !worker.lateSignal && !worker.childKilled
    ensures worker.waited == observed == (course.observation.wait == Succeeded)
  {
    worker.Wait(course.observation);
    observed := course.observation.wait == Succeeded;
  }

  /** `supervise_checkpoint_restore` and `supervise_checkpoint_capture`.  A capture that was cancelled or timed out
      skips the observation. */
  method SuperviseInline(worker: WorkerProcess, capture: bool, course: Course) returns (outcome: Outcome)
    requires worker.Live()
    modifies worker
    ensures worker.Disposed() && worker.SignalOrder()
    ensures outcome == Success <==>
      course.exchange == Succeeded && EndsWell(course) && (capture ==> course.attested) && !course.droppedAtEnd
    ensures outcome == Success ==> Finished(worker)
    ensures outcome == TaskDropped ==>
      course.droppedInExchange || course.droppedObserving || course.killed.wait == Interrupted || course.droppedAtEnd
  {
    var r := Perform(worker, capture, course);
    if r == Interrupted && course.droppedInExchange {
      worker.Drop();
      return TaskDropped;
    }
    if r != Succeeded && worker.active {
      var observed := false;
      if !capture || r == Failed {
        observed := ObserveExit(worker, course);
        if course.observation.wait == Interrupted && course.droppedObserving {
          worker.Drop();
          return TaskDropped;
        }
      }
      worker.KillTree();
      if !observed {
        worker.StartKill();
        worker.Wait(course.killed);
        if course.killed.wait == Interrupted {
          worker.Drop();
          return TaskDropped;
        }
      }
      worker.Disarm();
    }
    // The diagnostics are awaited here; the worker is dropped after that or, with the task, during it.
    worker.Drop();
    outcome := if course.droppedAtEnd then TaskDropped else if r == Succeeded then Success else Failure;
  }

  datatype Operation = Probe | Transport | Restore | Capture

  /** A run in which the supervisor's own task is left to finish. */
  predicate Undropped(course: Course)
  {
    && !course.droppedInExchange && !course.droppedObserving && !course.droppedAtEnd
    && course.killed.wait != Interrupted
  }

  /** Placement accepted the process, the exchange succeeded, the worker ended its output and exited with success, and a
      captured journal was attested. */
  predicate Accomplished(operation: Operation, placement: Placement, course: Course)
  {
    && placement != Rejects && course.piped && course.exchange == Succeeded && EndsWell(course)
    && (operation == Capture ==> course.attested)
  }

  /** A whole operation: whatever happens, no path ends with an active worker that was not killed; success is reported
      only of an accomplished operation, and of every one whose supervisor is left to finish. */
  method RunOperation(operation: Operation, placement: Placement, course: Course)
    returns (worker: WorkerProcess, outcome: Outcome)
    ensures fresh(worker) && worker.Disposed() && worker.SignalOrder()
    ensures outcome == Success ==> Finished(worker) && Accomplished(operation, placement, course)
    ensures Undropped(course) ==> outcome == if Accomplished(operation, placement, course) then Success else Failure
  {
    var placed: bool;
    worker, placed := SpawnWorker(placement, course);
    if !placed { return worker, Failure; }
    if !course.piped {
      worker.Drop();
      return worker, Failure;
    }
    match operation
    case Probe => outcome := SuperviseWithReaper(worker, course);
    case Transport => outcome := SuperviseWithReaper(worker, course);
    case Restore => outcome := SuperviseInline(worker, false, course);
    case Capture => outcome := SuperviseInline(worker, true, course);
  }
}
