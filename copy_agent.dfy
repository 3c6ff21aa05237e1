/**
 * The transfer task store and its scheduler: a map from task id to task, a
 * queue of task ids waiting to start, and a ceiling on how many transfers may
 * run at once.
 */
module CopyAgent {
  import opened Wrappers
  import Paths

  datatype TransferDirection = WindowsToLinux | LinuxToWindows

  datatype TransferStatus = Pending | InProgress | Completed | Failed | Cancelled

  /** A point in time, as the clock reported it. */
  type Timestamp = nat

  datatype TransferTask = TransferTask(
    id: string,
    sourcePath: string,
    destPath: string,
    direction: TransferDirection,
    status: TransferStatus,
    totalBytes: nat,
    transferredBytes: nat,
    createdAt: Timestamp,
    startedAt: Option<Timestamp>,
    completedAt: Option<Timestamp>,
    error: Option<string>)

  /** A progress report without its floating-point percentage. */
  datatype TransferProgress = TransferProgress(
    taskId: string,
    filename: string,
    direction: string,
    bytesTransferred: nat,
    totalBytes: nat,
    speedBytesPerSec: nat,
    estimatedRemainingSecs: nat)

  const MaxConcurrentTransfers: nat := 3
  const ChunkSize: nat := 8192
  const NotImplemented: string := "Linux to Windows transfer not implemented yet"
  const InvalidDirection: string := "Invalid direction"

  /** The size of one successful read into the 8192-byte copy buffer. */
  type ReadSize = n: nat | 0 < n <= ChunkSize witness 1

  /**
   * What copying the bytes of one upload does: the sizes of its successive
   * reads, each written out in full, and then either a clean end of file or
   * the error that stopped the copy (opening, reading, writing or flushing).
   */
  datatype CopyRun = CopyRun(chunks: seq<ReadSize>, failure: Option<string>)

  function Sum(s: seq<ReadSize>): nat
  {
    if s == [] then 0 else Sum(s[..|s| - 1]) + s[|s| - 1]
  }

  /** How a transfer in `direction` ends: uploads as their copy run says, downloads always fail. */
  function TransferOutcome(direction: TransferDirection, run: CopyRun): (r: Result<(), string>)
    ensures direction == LinuxToWindows ==> r == Err(NotImplemented)
    ensures direction == WindowsToLinux ==> (r.Ok? <==> run.failure.None?)
    ensures direction == WindowsToLinux && run.failure.Some? ==> r == Err(run.failure.value)
  {
    match direction
    case WindowsToLinux => if run.failure.Some? then Err(run.failure.value) else Ok(())
    case LinuxToWindows => Err(NotImplemented)
  }

  /** The direction as progress reports name it. */
  function DirectionLabel(direction: TransferDirection): (name: string)
    ensures name == "upload" <==> direction == WindowsToLinux
    ensures name == "download" <==> direction == LinuxToWindows
  {
    match direction
    case WindowsToLinux => "upload"
    case LinuxToWindows => "download"
  }

  /** The direction argument of the `create_transfer_task` command. */
  function ParseDirection(s: string): (r: Result<TransferDirection, string>)
    ensures r.Ok? <==> s == "windows_to_linux" || s == "linux_to_windows"
    ensures r.Err? ==> r.error == InvalidDirection
    ensures r.Ok? ==> (r.value == WindowsToLinux <==> s == "windows_to_linux")
  {
    match s
    case "windows_to_linux" => Ok(WindowsToLinux)
    case "linux_to_windows" => Ok(LinuxToWindows)
    case _ => Err(InvalidDirection)
  }

  /** Every task is stored under its own id. */
  predicate KeyedById(m: map<string, TransferTask>)
  {
    forall id :: id in m ==> m[id].id == id
  }

  /** The ids of the tasks that are running. */
  function InProgressIds(m: map<string, TransferTask>): (ids: set<string>)
    ensures forall id :: id in ids <==> id in m && m[id].status == InProgress
  {
    set id | id in m && m[id].status == InProgress
  }

  /** How many tasks are running (what `process_queue` compares with the ceiling). */
  function InProgressCount(m: map<string, TransferTask>): nat
  {
    |InProgressIds(m)|
  }

  /**
   * The task after `start_transfer` has run it to the end: marked in progress
   * with its start time, its byte counter set by the last chunk copied (if
   * any), then Completed with a completion time or Failed with the error.
   */
  function StartedTask(t: TransferTask, run: CopyRun, startedAt: Timestamp, completedAt: Timestamp): (u: TransferTask)
    ensures u.id == t.id && u.sourcePath == t.sourcePath && u.destPath == t.destPath
    ensures u.direction == t.direction && u.totalBytes == t.totalBytes && u.createdAt == t.createdAt
    ensures u.startedAt == Some(startedAt)
    ensures u.status == Completed || u.status == Failed
    ensures u.status == Completed <==> TransferOutcome(t.direction, run).Ok?
    ensures u.status == Completed ==> u.completedAt == Some(completedAt) && u.error == t.error
    ensures u.status == Failed ==> u.completedAt == t.completedAt && u.error == Some(TransferOutcome(t.direction, run).error)
    ensures t.direction == LinuxToWindows ==> u.status == Failed && u.error == Some(NotImplemented)
    ensures u.transferredBytes == if t.direction == WindowsToLinux && run.chunks != [] then Sum(run.chunks) else t.transferredBytes
  {
    var running := t.(status := InProgress, startedAt := Some(startedAt));
    var copied := if t.direction == WindowsToLinux && run.chunks != [] then running.(transferredBytes := Sum(run.chunks)) else running;
    match TransferOutcome(t.direction, run)
    case Ok(_) => copied.(status := Completed, completedAt := Some(completedAt))
    case Err(e) => copied.(status := Failed, error := Some(e))
  }

  /** The store after `start_transfer(id)`: only that task changes, and only when present. */
  function AfterStart(m: map<string, TransferTask>, id: string, run: CopyRun, startedAt: Timestamp, completedAt: Timestamp)
    : (m': map<string, TransferTask>)
    ensures m'.Keys == m.Keys
    ensures forall other :: other in m && other != id ==> m'[other] == m[other]
    ensures id !in m ==> m' == m
    ensures KeyedById(m) ==> KeyedById(m')
  {
    if id in m then m[id := StartedTask(m[id], run, startedAt, completedAt)] else m
  }

  /** Running a task to its end never adds to the running tasks: the ceiling cannot be overrun. */
  lemma StartNeverAddsRunning(m: map<string, TransferTask>, id: string, run: CopyRun, startedAt: Timestamp, completedAt: Timestamp)
    ensures InProgressIds(AfterStart(m, id, run, startedAt, completedAt)) == InProgressIds(m) - {id}
    ensures InProgressCount(AfterStart(m, id, run, startedAt, completedAt)) <= InProgressCount(m)
  {
    var m' := AfterStart(m, id, run, startedAt, completedAt);
    assert InProgressIds(m') == InProgressIds(m) - {id};
    assert InProgressIds(m') <= InProgressIds(m);
  }

  class CopyAgent {
    var activeTransfers: map<string, TransferTask>
    /** Ids of tasks waiting to start; the next one is taken from the back. */
    var transferQueue: seq<string>
    const maxConcurrentTransfers: nat

    ghost predicate Valid()
      reads this
    {
      KeyedById(activeTransfers)
    }

    /** `CopyAgent::new` */
    constructor ()
      ensures Valid()
      ensures activeTransfers == map[] && transferQueue == [] && maxConcurrentTransfers == MaxConcurrentTransfers
    {
      activeTransfers := map[];
      transferQueue := [];
      maxConcurrentTransfers := MaxConcurrentTransfers;
    }

    /**
     * `create_transfer_task`: look up the source's size; on success store a
     * fresh Pending task under `taskId` and append `taskId` to the queue. A
     * failed size lookup changes nothing.
     */
    method CreateTransferTask(taskId: string, sourcePath: string, destPath: string, direction: TransferDirection,
                              fileSize: Result<nat, string>, now: Timestamp)
      returns (r: Result<string, string>)
      requires Valid()
      modifies this
      ensures Valid()
      ensures fileSize.Err? ==>
        r == Err(fileSize.error) && activeTransfers == old(activeTransfers) && transferQueue == old(transferQueue)
      ensures fileSize.Ok? ==> r == Ok(taskId) && transferQueue == old(transferQueue) + [taskId]
      ensures fileSize.Ok? ==> activeTransfers == old(activeTransfers)[taskId :=
        TransferTask(taskId, sourcePath, destPath, direction, Pending, fileSize.value, 0, now, None, None, None)]
    {
      if fileSize.Err? {
        return Err(fileSize.error);
      }
      var task := TransferTask(
        id := taskId,
        sourcePath := sourcePath,
        destPath := destPath,
        direction := direction,
        status := Pending,
        totalBytes := fileSize.value,
        transferredBytes := 0,
        createdAt := now,
        startedAt := None,
        completedAt := None,
        error := None);
      activeTransfers := activeTransfers[taskId := task];
      transferQueue := transferQueue + [taskId];
      return Ok(taskId);
    }

    /** `get_next_queued_task`: take the id at the back of the queue, if any. */
    method GetNextQueuedTask() returns (r: Option<string>)
      modifies this`transferQueue
      ensures old(transferQueue) == [] ==> r == None && transferQueue == []
      ensures old(transferQueue) != [] ==>
        && r == Some(old(transferQueue)[|old(transferQueue)| - 1])
        && transferQueue == old(transferQueue)[..|old(transferQueue)| - 1]
    {
      if transferQueue == [] {
        return None;
      }
      r := Some(transferQueue[|transferQueue| - 1]);
      transferQueue := transferQueue[..|transferQueue| - 1];
    }

    /** First half of `start_transfer`: mark a stored task as running, with its start time. */
    method MarkInProgress(taskId: string, startedAt: Timestamp) returns (task: Option<TransferTask>)
      requires Valid()
      modifies this`activeTransfers
      ensures Valid()
      ensures taskId !in old(activeTransfers) ==> task == None && activeTransfers == old(activeTransfers)
      ensures taskId in old(activeTransfers) ==>
        && task == Some(old(activeTransfers)[taskId].(status := InProgress, startedAt := Some(startedAt)))
        && activeTransfers == old(activeTransfers)[taskId := task.value]
    {
      if taskId !in activeTransfers {
        return None;
      }
      var t := activeTransfers[taskId];
      t := t.(status := InProgress, startedAt := Some(startedAt));
      activeTransfers := activeTransfers[taskId := t];
      return Some(t);
    }

    /**
     * `transfer_windows_to_linux`: copy chunk by chunk, recording the running
     * byte total in the stored task after every chunk.
     */
    method CopyWindowsToLinux(task: TransferTask, run: CopyRun) returns (result: Result<(), string>)
      requires Valid()
      modifies this`activeTransfers
      ensures Valid()
      ensures result == TransferOutcome(WindowsToLinux, run)
      ensures activeTransfers ==
        if task.id in old(activeTransfers) && run.chunks != []
        then old(activeTransfers)[task.id := old(activeTransfers)[task.id].(transferredBytes := Sum(run.chunks))]
        else old(activeTransfers)
    {
      var transferred: nat := 0;
      var i := 0;
      while i < |run.chunks|
        invariant 0 <= i <= |run.chunks|
        invariant Valid()
        invariant transferred == Sum(run.chunks[..i])
        invariant activeTransfers ==
          if task.id in old(activeTransfers) && i > 0
          then old(activeTransfers)[task.id := old(activeTransfers)[task.id].(transferredBytes := transferred)]
          else old(activeTransfers)
      {
        assert run.chunks[..i + 1][..i] == run.chunks[..i];
        transferred := transferred + run.chunks[i];
        if task.id in activeTransfers {
          activeTransfers := activeTransfers[task.id := activeTransfers[task.id].(transferredBytes := transferred)];
        }
        i := i + 1;
      }
      assert run.chunks[..i] == run.chunks;
      if run.failure.Some? {
        return Err(run.failure.value);
      }
      return Ok(());
    }

    /**
     * Last step of `start_transfer`: record how the copy ended, over whatever
     * status the task has by then (a Cancelled task included).
     */
    method FinishTransfer(taskId: string, result: Result<(), string>, completedAt: Timestamp)
      requires Valid()
      modifies this`activeTransfers
      ensures Valid()
      ensures taskId !in old(activeTransfers) ==> activeTransfers == old(activeTransfers)
      ensures taskId in old(activeTransfers) ==> activeTransfers == old(activeTransfers)[taskId :=
        match result
        case Ok(_) => old(activeTransfers)[taskId].(status := Completed, completedAt := Some(completedAt))
        case Err(e) => old(activeTransfers)[taskId].(status := Failed, error := Some(e))]
    {
      if taskId in activeTransfers {
        var t := activeTransfers[taskId];
        match result {
          case Ok(_) =>
            t := t.(status := Completed, completedAt := Some(completedAt));
          case Err(e) =>
            t := t.(status := Failed, error := Some(e));
        }
        activeTransfers := activeTransfers[taskId := t];
      }
    }

    /**
     * `start_transfer`: mark the task running, copy in its direction (the
     * download direction is not implemented and always fails), then record
     * the outcome. An unknown id changes nothing; the result is always Ok.
     */
    method StartTransfer(taskId: string, run: CopyRun, startedAt: Timestamp, completedAt: Timestamp)
      returns (r: Result<(), string>)
      requires Valid()
      modifies this
      ensures Valid()
      ensures r == Ok(())
      ensures transferQueue == old(transferQueue)
      ensures activeTransfers == AfterStart(old(activeTransfers), taskId, run, startedAt, completedAt)
    {
      var task := MarkInProgress(taskId, startedAt);
      if task.Some? {
        var result: Result<(), string>;
        match task.value.direction {
          case WindowsToLinux =>
            result := CopyWindowsToLinux(task.value, run);
          case LinuxToWindows =>
            result := Err(NotImplemented);
        }
        FinishTransfer(taskId, result, completedAt);
      }
      return Ok(());
    }

    /**
     * One pass of the `process_queue` loop: when fewer tasks are running than
     * the ceiling allows, take the next queued id and start it.
     */
    method ProcessQueueStep(run: CopyRun, startedAt: Timestamp, completedAt: Timestamp) returns (started: Option<string>)
      requires Valid()
      modifies this
      ensures Valid()
      ensures InProgressCount(old(activeTransfers)) >= maxConcurrentTransfers || old(transferQueue) == [] ==>
        started == None && activeTransfers == old(activeTransfers) && transferQueue == old(transferQueue)
      ensures InProgressCount(old(activeTransfers)) < maxConcurrentTransfers && old(transferQueue) != [] ==>
        && started == Some(old(transferQueue)[|old(transferQueue)| - 1])
        && transferQueue == old(transferQueue)[..|old(transferQueue)| - 1]
        && activeTransfers == AfterStart(old(activeTransfers), started.value, run, startedAt, completedAt)
      ensures InProgressCount(activeTransfers) <= InProgressCount(old(activeTransfers))
    {
      started := None;
      var currentTransfers := InProgressCount(activeTransfers);
      if currentTransfers < maxConcurrentTransfers {
        var next := GetNextQueuedTask();
        if next.Some? {
          started := next;
          StartNeverAddsRunning(activeTransfers, next.value, run, startedAt, completedAt);
          var _ := StartTransfer(next.value, run, startedAt, completedAt);
        }
      }
    }

    /** `get_transfer_progress`: a snapshot of one task's counters, or None for an unknown id. */
    function GetTransferProgress(taskId: string): (r: Option<TransferProgress>)
      reads this
      ensures r.None? <==> taskId !in activeTransfers
      ensures r.Some? ==>
        var t := activeTransfers[taskId];
        && r.value.taskId == t.id
        && r.value.filename == Paths.FileNameOr(t.sourcePath, "unknown")
        && r.value.direction == DirectionLabel(t.direction)
        && r.value.bytesTransferred == t.transferredBytes
        && r.value.totalBytes == t.totalBytes
        && r.value.speedBytesPerSec == 0 && r.value.estimatedRemainingSecs == 0
    {
      if taskId in activeTransfers then
        var t := activeTransfers[taskId];
        Some(TransferProgress(
          taskId := t.id,
          filename := Paths.FileNameOr(t.sourcePath, "unknown"),
          direction := DirectionLabel(t.direction),
          bytesTransferred := t.transferredBytes,
          totalBytes := t.totalBytes,
          speedBytesPerSec := 0,
          estimatedRemainingSecs := 0))
      else None
    }

    /** `get_active_transfers`: every stored task once, in no particular order. */
    method GetActiveTransfers() returns (tasks: seq<TransferTask>)
      requires Valid()
      ensures |tasks| == |activeTransfers|
      ensures forall i :: 0 <= i < |tasks| ==> tasks[i].id in activeTransfers && activeTransfers[tasks[i].id] == tasks[i]
      ensures forall i, j :: 0 <= i < j < |tasks| ==> tasks[i].id != tasks[j].id
      ensures forall id :: id in activeTransfers ==> exists i :: 0 <= i < |tasks| && tasks[i].id == id
    {
      tasks := [];
      ghost var ids: seq<string> := [];
      var remaining := activeTransfers.Keys;
      while remaining != {}
        invariant remaining <= activeTransfers.Keys
        invariant |tasks| + |remaining| == |activeTransfers|
        invariant |ids| == |tasks|
        invariant forall i :: 0 <= i < |tasks| ==> ids[i] == tasks[i].id
        invariant forall i :: 0 <= i < |tasks| ==> tasks[i].id in activeTransfers && activeTransfers[tasks[i].id] == tasks[i]
        invariant forall i :: 0 <= i < |tasks| ==> tasks[i].id !in remaining
        invariant forall i, j :: 0 <= i < j < |tasks| ==> tasks[i].id != tasks[j].id
        invariant forall id :: id in activeTransfers && id !in remaining ==> id in ids
        decreases |remaining|
      {
        var id :| id in remaining;
        tasks := tasks + [activeTransfers[id]];
        ids := ids + [id];
        remaining := remaining - {id};
      }
      forall id | id in activeTransfers
        ensures exists i :: 0 <= i < |tasks| && tasks[i].id == id
      {
        var i :| 0 <= i < |ids| && ids[i] == id;
        assert tasks[i].id == id;
      }
    }

    /**
     * `cancel_transfer`: mark a stored task Cancelled whatever its status;
     * the queue is left alone, so the id may still be started later.
     */
    method CancelTransfer(taskId: string) returns (r: Result<(), string>)
      requires Valid()
      modifies this`activeTransfers
      ensures Valid()
      ensures r == Ok(())
      ensures taskId !in old(activeTransfers) ==> activeTransfers == old(activeTransfers)
      ensures taskId in old(activeTransfers) ==>
        activeTransfers == old(activeTransfers)[taskId := old(activeTransfers)[taskId].(status := Cancelled)]
    {
      if taskId in activeTransfers {
        activeTransfers := activeTransfers[taskId := activeTransfers[taskId].(status := Cancelled)];
      }
      return Ok(());
    }

    /**
     * `retry_transfer`: reset a stored task to Pending with no error and no
     * bytes copied, whatever its status, and push the id onto the queue
     * whether or not a task has it.
     */
    method RetryTransfer(taskId: string) returns (r: Result<(), string>)
      requires Valid()
      modifies this
      ensures Valid()
      ensures r == Ok(())
      ensures transferQueue == old(transferQueue) + [taskId]
      ensures taskId !in old(activeTransfers) ==> activeTransfers == old(activeTransfers)
      ensures taskId in old(activeTransfers) ==>
        activeTransfers == old(activeTransfers)[taskId :=
          old(activeTransfers)[taskId].(status := Pending, error := None, transferredBytes := 0)]
    {
      if taskId in activeTransfers {
        activeTransfers := activeTransfers[taskId :=
          activeTransfers[taskId].(status := Pending, error := None, transferredBytes := 0)];
      }
      transferQueue := transferQueue + [taskId];
      return Ok(());
    }
  }

  /**
   * The `create_transfer_task` command: parse the direction, then create the
   * task. An unknown direction is refused before anything is looked up.
   */
  method CreateTransferTaskCommand(agent: CopyAgent, sourcePath: string, destPath: string, direction: string,
                                   taskId: string, fileSize: Result<nat, string>, now: Timestamp)
    returns (r: Result<string, string>)
    requires agent.Valid()
    modifies agent
    ensures agent.Valid()
    ensures ParseDirection(direction).Err? ==> (
      && r == Err(InvalidDirection)
      && agent.activeTransfers == old(agent.activeTransfers)
      && agent.transferQueue == old(agent.transferQueue))
    ensures ParseDirection(direction).Ok? && fileSize.Err? ==> (
      && r == Err(fileSize.error)
      && agent.activeTransfers == old(agent.activeTransfers)
      && agent.transferQueue == old(agent.transferQueue))
    ensures ParseDirection(direction).Ok? && fileSize.Ok? ==> (
      && r == Ok(taskId)
      && agent.transferQueue == old(agent.transferQueue) + [taskId]
      && agent.activeTransfers == old(agent.activeTransfers)[taskId :=
           TransferTask(taskId, sourcePath, destPath, ParseDirection(direction).value, Pending,
                        fileSize.value, 0, now, None, None, None)])
  {
    match ParseDirection(direction) {
      case Err(e) =>
        return Err(e);
      case Ok(d) =>
        r := agent.CreateTransferTask(taskId, sourcePath, destPath, d, fileSize, now);
    }
  }

  /**
   * The queue hands out the most recently added id first: after two tasks
   * are created on a fresh agent, the next one to start is the second.
   */
  method NewestQueuedFirst(first: string, second: string, size: nat, now: Timestamp) returns (next: Option<string>)
    ensures next == Some(second)
  {
    var agent := new CopyAgent();
    var _ := agent.CreateTransferTask(first, "a", "b", WindowsToLinux, Ok(size), now);
    var _ := agent.CreateTransferTask(second, "c", "d", WindowsToLinux, Ok(size), now);
    next := agent.GetNextQueuedTask();
  }

  /**
   * A task cancelled while its copy is under way ends up Completed, not
   * Cancelled, once the copy succeeds: the final write ignores the status it finds.
   */
  method CancelDuringCopyIsOverwritten(taskId: string, size: nat, now: Timestamp) returns (status: TransferStatus)
    ensures status == Completed
  {
    var agent := new CopyAgent();
    var _ := agent.CreateTransferTask(taskId, "a", "b", WindowsToLinux, Ok(size), now);
    var task := agent.MarkInProgress(taskId, now);
    var _ := agent.CancelTransfer(taskId);
    assert agent.activeTransfers[taskId].status == Cancelled;
    agent.FinishTransfer(taskId, Ok(()), now);
    status := agent.activeTransfers[taskId].status;
  }
}
