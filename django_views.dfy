/**
 * The task actions of `DownloadTaskViewSet` (`downloader/views.py`): each
 * action looks the task up (404 when it is missing), checks its guard and
 * either rejects the request with a 400 message or changes the task and
 * answers with a success message. `start_download_task.delay` appends a
 * `StartDownload` job.
 *
 * The guards are not the transition table of the update serializer, and
 * two actions hand work to `start_download_task` that it will not do:
 * after `resume` the task is not `pending`, so the start returns at once;
 * after `retry` the old segment records are still there, so the start
 * stops on the `(task, index)` uniqueness constraint.
 */
module DjangoViews {
  import opened Wrappers
  import opened Seqs
  import opened DjangoModels
  import opened DjangoSerializers
  import PyM3U8Parser
  import DjangoTasks

  /** What an action answers: `{'message': ...}`, `{'error': ...}` with 400, or 404. */
  datatype Reply = Done(message: string) | Rejected(error: string) | NotFound

  /** The store after an action and its reply. */
  datatype Response = Response(store: Store, reply: Reply)

  const PauseRejected := "Task is not in a pausable state"
  const ResumeRejected := "Task is not in a resumable state"
  const CancelRejected := "Task is already completed or cancelled"
  const RetryRejected := "Task is not in a retryable state"

  /** The statuses `active` lists. */
  const ActiveStatuses: set<string> := {Pending, Downloading, Merging}

  /** A guard, then one change of the task and possibly one job. */
  function Act(s: Store, id: TaskId, allowed: bool, rejected: string, t: Task, jobs: seq<Job>, message: string): Response
    requires id in s.tasks
  {
    if !allowed then Response(s, Rejected(rejected))
    else Response(s.(tasks := s.tasks[id := t], queue := s.queue + jobs), Done(message))
  }

  function PauseSpec(s: Store, id: TaskId): Response {
    if id !in s.tasks then Response(s, NotFound)
    else
      var t := s.tasks[id];
      Act(s, id, t.status == Downloading, PauseRejected, t.(status := Paused), [], "Task paused successfully")
  }

  function ResumeSpec(s: Store, id: TaskId): Response {
    if id !in s.tasks then Response(s, NotFound)
    else
      var t := s.tasks[id];
      Act(s, id, t.status == Paused || t.status == Failed, ResumeRejected, t.(status := Downloading),
          [StartDownload(id)], "Task resumed successfully")
  }

  function CancelSpec(s: Store, id: TaskId): Response {
    if id !in s.tasks then Response(s, NotFound)
    else
      var t := s.tasks[id];
      Act(s, id, t.status != Completed && t.status != Cancelled, CancelRejected, t.(status := Cancelled), [],
          "Task cancelled successfully")
  }

  /** The fields `retry` resets. */
  function RetryReset(t: Task): Task {
    t.(status := Pending, progress := 0.0, downloadedSize := 0, downloadedSegments := 0, failedSegments := 0,
       errorMessage := "")
  }

  function RetrySpec(s: Store, id: TaskId): Response {
    if id !in s.tasks then Response(s, NotFound)
    else
      var t := s.tasks[id];
      Act(s, id, t.status == Failed, RetryRejected, RetryReset(t), [StartDownload(id)],
          "Task retry started successfully")
  }

  method Pause(db: Database, id: TaskId) returns (r: Reply)
    modifies db
    ensures Response(db.State(), r) == PauseSpec(old(db.State()), id)
  {
    if id !in db.tasks {
      return NotFound;
    }
    var task := db.tasks[id];
    if task.status != Downloading {
      return Rejected(PauseRejected);
    }
    task := task.(status := Paused);
    db.tasks := db.tasks[id := task];
    assert db.queue == old(db.queue) + [];
    return Done("Task paused successfully");
  }

  method Resume(db: Database, id: TaskId) returns (r: Reply)
    modifies db
    ensures Response(db.State(), r) == ResumeSpec(old(db.State()), id)
  {
    if id !in db.tasks {
      return NotFound;
    }
    var task := db.tasks[id];
    if task.status != Paused && task.status != Failed {
      return Rejected(ResumeRejected);
    }
    task := task.(status := Downloading);
    db.tasks := db.tasks[id := task];
    db.queue := db.queue + [StartDownload(id)];
    return Done("Task resumed successfully");
  }

  method Cancel(db: Database, id: TaskId) returns (r: Reply)
    modifies db
    ensures Response(db.State(), r) == CancelSpec(old(db.State()), id)
  {
    if id !in db.tasks {
      return NotFound;
    }
    var task := db.tasks[id];
    if task.status == Completed || task.status == Cancelled {
      return Rejected(CancelRejected);
    }
    task := task.(status := Cancelled);
    db.tasks := db.tasks[id := task];
    assert db.queue == old(db.queue) + [];
    return Done("Task cancelled successfully");
  }

  method Retry(db: Database, id: TaskId) returns (r: Reply)
    modifies db
    ensures Response(db.State(), r) == RetrySpec(old(db.State()), id)
  {
    if id !in db.tasks {
      return NotFound;
    }
    var task := db.tasks[id];
    if task.status != Failed {
      return Rejected(RetryRejected);
    }
    task := task.(status := Pending, progress := 0.0, downloadedSize := 0, downloadedSegments := 0,
                  failedSegments := 0, errorMessage := "");
    db.tasks := db.tasks[id := task];
    db.queue := db.queue + [StartDownload(id)];
    return Done("Task retry started successfully");
  }

  /** `active`: the ids of the tasks whose status is pending, downloading or merging. */
  function Active(tasks: map<TaskId, Task>): (r: set<TaskId>)
    ensures r <= tasks.Keys
  {
    set id | id in tasks && tasks[id].status in ActiveStatuses
  }

  // ---------------------------------------------------------------------
  // Guards
  // ---------------------------------------------------------------------

  /** An action on a missing task answers 404 and changes nothing. */
  lemma MissingTaskNotFound(s: Store, id: TaskId)
    requires id !in s.tasks
    ensures PauseSpec(s, id) == ResumeSpec(s, id) == CancelSpec(s, id) == RetrySpec(s, id) == Response(s, NotFound)
  {
  }

  /** Every rejected action leaves the store as it was. */
  lemma RejectionChangesNothing(s: Store, id: TaskId)
    ensures PauseSpec(s, id).reply.Rejected? ==> PauseSpec(s, id).store == s
    ensures ResumeSpec(s, id).reply.Rejected? ==> ResumeSpec(s, id).store == s
    ensures CancelSpec(s, id).reply.Rejected? ==> CancelSpec(s, id).store == s
    ensures RetrySpec(s, id).reply.Rejected? ==> RetrySpec(s, id).store == s
  {
  }

  /** `pause` succeeds exactly from `downloading` and then changes only the status, to `paused`. */
  lemma PauseGuard(s: Store, id: TaskId)
    requires id in s.tasks
    ensures var r := PauseSpec(s, id);
      && (r.reply.Done? <==> s.tasks[id].status == Downloading)
      && (r.reply.Done? ==> r.store == s.(tasks := s.tasks[id := s.tasks[id].(status := Paused)]))
      && (r.reply.Rejected? ==> r.reply.error == PauseRejected)
  {
  }

  /** `resume` succeeds exactly from `paused` or `failed`, sets `downloading` and dispatches a start. */
  lemma ResumeGuard(s: Store, id: TaskId)
    requires id in s.tasks
    ensures var r := ResumeSpec(s, id);
      && (r.reply.Done? <==> s.tasks[id].status in {Paused, Failed})
      && (r.reply.Done? ==>
            r.store == s.(tasks := s.tasks[id := s.tasks[id].(status := Downloading)],
                          queue := s.queue + [StartDownload(id)]))
      && (r.reply.Rejected? ==> r.reply.error == ResumeRejected)
  {
  }

  /** `cancel` succeeds from every status but `completed` and `cancelled`. */
  lemma CancelGuard(s: Store, id: TaskId)
    requires id in s.tasks
    ensures var r := CancelSpec(s, id);
      && (r.reply.Done? <==> s.tasks[id].status !in {Completed, Cancelled})
      && (r.reply.Done? ==> r.store == s.(tasks := s.tasks[id := s.tasks[id].(status := Cancelled)]))
      && (r.reply.Rejected? ==> r.reply.error == CancelRejected)
  {
  }

  /**
   * `retry` succeeds exactly from `failed`; it resets the status to
   * `pending` and the progress, size, counters and error message, and
   * leaves every other field, the segment records and the history alone.
   */
  lemma RetryGuard(s: Store, id: TaskId)
    requires id in s.tasks
    ensures var r := RetrySpec(s, id);
      var t := s.tasks[id];
      && (r.reply.Done? <==> t.status == Failed)
      && (r.reply.Done? ==>
            && r.store.tasks == s.tasks[id := r.store.tasks[id]]
            && r.store.tasks[id].status == Pending && r.store.tasks[id].progress == 0.0
            && r.store.tasks[id].downloadedSize == 0 && r.store.tasks[id].downloadedSegments == 0
            && r.store.tasks[id].failedSegments == 0 && r.store.tasks[id].errorMessage == ""
            && r.store.tasks[id].totalSegments == t.totalSegments && r.store.tasks[id].tempDir == t.tempDir
            && r.store.tasks[id].url == t.url && r.store.tasks[id].outputPath == t.outputPath
            && r.store.segments == s.segments && r.store.history == s.history
            && r.store.queue == s.queue + [StartDownload(id)])
      && (r.reply.Rejected? ==> r.reply.error == RetryRejected)
  {
  }

  /**
   * The actions allow three moves the update serializer's table refuses:
   * merging to cancelled, failed to cancelled and failed to pending.
   */
  lemma GuardsExceedTable(s: Store, id: TaskId)
    requires id in s.tasks
    ensures s.tasks[id].status == Merging ==>
      CancelSpec(s, id).reply.Done? && ValidateStatus(Some(Merging), Cancelled).Err?
    ensures s.tasks[id].status == Failed ==>
      && CancelSpec(s, id).reply.Done? && ValidateStatus(Some(Failed), Cancelled).Err?
      && RetrySpec(s, id).store.tasks[id].status == Pending && ValidateStatus(Some(Failed), Pending).Err?
  {
    assert AllowedTransitions[Merging] == [Completed, Failed];
    assert AllowedTransitions[Failed] == [Downloading];
  }

  /** The moves the actions make that the table does allow. */
  lemma GuardsWithinTable()
    ensures ValidateStatus(Some(Downloading), Paused).Ok?
    ensures ValidateStatus(Some(Paused), Downloading).Ok? && ValidateStatus(Some(Failed), Downloading).Ok?
    ensures ValidateStatus(Some(Pending), Cancelled).Ok? && ValidateStatus(Some(Downloading), Cancelled).Ok?
    ensures ValidateStatus(Some(Paused), Cancelled).Ok?
  {
  }

  /** A task is active exactly when its status is pending, downloading or merging. */
  lemma ActiveMembers(tasks: map<TaskId, Task>, id: TaskId)
    ensures id in Active(tasks) <==> id in tasks && tasks[id].status in {Pending, Downloading, Merging}
  {
  }

  /** Pausing takes a task out of the active set; cancelling does too; resuming and retrying put it back. */
  lemma ActionsAndActive(s: Store, id: TaskId)
    requires id in s.tasks
    ensures PauseSpec(s, id).reply.Done? ==> Active(PauseSpec(s, id).store.tasks) == Active(s.tasks) - {id}
    ensures CancelSpec(s, id).reply.Done? ==> Active(CancelSpec(s, id).store.tasks) == Active(s.tasks) - {id}
    ensures ResumeSpec(s, id).reply.Done? ==> Active(ResumeSpec(s, id).store.tasks) == Active(s.tasks) + {id}
    ensures RetrySpec(s, id).reply.Done? ==> Active(RetrySpec(s, id).store.tasks) == Active(s.tasks) + {id}
  {
  }

  // ---------------------------------------------------------------------
  // What the dispatched start does
  // ---------------------------------------------------------------------

  /**
   * After a resume the task is `downloading`, so the start job it
   * dispatches returns at once: no segment is dispatched again.
   */
  lemma ResumeThenStartIsIdle(s: Store, id: TaskId, parsed: PyM3U8Parser.Parsed, now: int, tempRoot: string,
                              dirError: Option<string>)
    requires ResumeSpec(s, id).reply.Done?
    ensures var r := ResumeSpec(s, id).store;
      && r.tasks[id].status == Downloading
      && DjangoTasks.StartSpec(r, id, parsed, now, tempRoot, dirError) == r
  {
  }

  /**
   * `resume` as its comment intends ("Restart the download task"): the task
   * goes back to `downloading` and the segment dispatch job is queued.
   */
  function ResumeRestartingSpec(s: Store, id: TaskId): Response {
    if id !in s.tasks then Response(s, NotFound)
    else
      var t := s.tasks[id];
      Act(s, id, t.status == Paused || t.status == Failed, ResumeRejected, t.(status := Downloading),
          [DownloadSegments(id)], "Task resumed successfully")
  }

  /** The corrected resume dispatches a download job for every pending segment of the task. */
  lemma ResumeRestartingDispatches(s: Store, id: TaskId)
    requires Dense(s.segments) && ResumeRestartingSpec(s, id).reply.Done?
    ensures var r := ResumeRestartingSpec(s, id).store;
      && r.queue == s.queue + [DownloadSegments(id)]
      && DjangoTasks.DispatchSpec(r, id).queue
         == r.queue + DjangoTasks.SingleJobs(id, Where(s.segments, DjangoTasks.PendingOf(id))) + [CheckCompletion(id)]
  {
  }

  /**
   * A retry of a task that already has segment records makes the start it
   * dispatches fail on the uniqueness constraint: the task ends `failed`
   * again and nothing is downloaded.
   */
  lemma RetryThenStartFails(s: Store, id: TaskId, parsed: PyM3U8Parser.Parsed, now: int, tempRoot: string)
    requires Dense(s.segments) && RetrySpec(s, id).reply.Done?
    requires |parsed.segments| > 0 && TaskCount(s.segments, id) > 0
    ensures var r := DjangoTasks.StartSpec(RetrySpec(s, id).store, id, parsed, now, tempRoot, None);
      && r.tasks[id].status == Failed && r.tasks[id].errorMessage == DjangoTasks.UniqueViolation
      && r.segments == s.segments
  {
    DjangoTasks.StartOverRecordsFails(RetrySpec(s, id).store, id, parsed, now, tempRoot);
  }

  /**
   * With the corrected start, a retry goes ahead: the task is downloading,
   * every index has one record in its new state and the dispatch job is queued.
   */
  lemma RetryThenRestartSucceeds(s: Store, id: TaskId, parsed: PyM3U8Parser.Parsed, now: int, tempRoot: string)
    requires Dense(s.segments) && RetrySpec(s, id).reply.Done? && |parsed.segments| > 0
    ensures var s1 := RetrySpec(s, id).store;
      var r := DjangoTasks.StartReusingSpec(s1, id, parsed, now, tempRoot, None);
      && r.tasks[id].status == Downloading
      && DjangoTasks.Restarted(r.segments, id, parsed.segments, now)
      && r.queue == s1.queue + [DownloadSegments(id)]
  {
    DjangoTasks.StartReusingRestarts(RetrySpec(s, id).store, id, parsed, now, tempRoot);
  }
}
