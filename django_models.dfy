/**
 * The Django backend's records: `DownloadTask` and `DownloadSegment` with
 * their defaults, choice sets and labels, the history and file records the
 * Celery jobs create, and the database those jobs and the views work on.
 *
 * A segment's id is its position in the segment table. Segments of one
 * task are created with indices 0, 1, 2, ... and never removed, which the
 * `Dense` invariant states; `(task, index)` uniqueness and ordering by
 * index follow from it.
 */
module DjangoModels {
  import opened Wrappers
  import opened Text

  type TaskId = string

  const Pending := "pending"
  const Downloading := "downloading"
  const Merging := "merging"
  const Completed := "completed"
  const Failed := "failed"
  const Paused := "paused"
  const Cancelled := "cancelled"

  /** The seven `DownloadTask.status` choices. */
  const TaskStatuses: seq<string> := [Pending, Downloading, Merging, Completed, Failed, Paused, Cancelled]

  /** The four `DownloadSegment.status` choices. */
  const SegmentStatuses: seq<string> := [Pending, Downloading, Completed, Failed]

  lemma StatusChoicesDistinct()
    ensures forall i, j :: 0 <= i < j < |TaskStatuses| ==> TaskStatuses[i] != TaskStatuses[j]
    ensures forall k :: 0 <= k < |SegmentStatuses| ==> SegmentStatuses[k] in TaskStatuses
    ensures Paused !in SegmentStatuses && Merging !in SegmentStatuses && Cancelled !in SegmentStatuses
  {
  }

  datatype Task = Task(
    id: TaskId,
    url: string,
    title: string,
    status: string,
    progress: real,
    fileSize: Option<int>,
    downloadedSize: int,
    speed: string,
    eta: string,
    totalSegments: int,
    downloadedSegments: int,
    failedSegments: int,
    outputPath: string,
    tempDir: string,
    encryptionKey: string,
    encryptionIv: string,
    createdAt: int,
    startedAt: Option<int>,
    completedAt: Option<int>,
    errorMessage: string)

  /** A task as `DownloadTaskCreateSerializer.save` stores it. */
  function NewTask(id: TaskId, url: string, title: string, outputPath: string, now: int): (t: Task)
    ensures t.status == Pending && t.progress == 0.0 && t.downloadedSize == 0
    ensures t.totalSegments == 0 && t.downloadedSegments == 0 && t.failedSegments == 0
    ensures t.id == id && t.url == url && t.title == title && t.outputPath == outputPath && t.createdAt == now
    ensures t.fileSize.None? && t.startedAt.None? && t.completedAt.None?
    ensures t.tempDir == "" && t.encryptionKey == "" && t.encryptionIv == "" && t.errorMessage == ""
  {
    Task(id, url, title, Pending, 0.0, None, 0, "", "", 0, 0, 0, outputPath, "", "", "", now, None, None, "")
  }

  datatype Segment = Segment(
    task: TaskId,
    index: int,
    url: string,
    status: string,
    filePath: string,
    fileSize: Option<int>,
    retryCount: int,
    errorMessage: string,
    createdAt: int,
    completedAt: Option<int>)

  /** `DownloadSegment.objects.create(task=..., index=..., url=...)`. */
  function NewSegment(task: TaskId, index: int, url: string, now: int): (s: Segment)
    ensures s.task == task && s.index == index && s.url == url && s.createdAt == now
    ensures s.status == Pending && s.retryCount == 0 && s.filePath == "" && s.fileSize.None?
    ensures s.completedAt.None? && s.errorMessage == ""
  {
    Segment(task, index, url, Pending, "", None, 0, "", now, None)
  }

  /** `title or 'Untitled'`. */
  function DisplayTitle(title: string): (r: string)
    ensures r != ""
    ensures title != "" ==> r == title
  {
    if title == "" then "Untitled" else title
  }

  /** `DownloadTask.__str__`. */
  function TaskLabel(t: Task): (r: string)
    ensures StartsWith(r, DisplayTitle(t.title)) && EndsWith(r, " - " + t.status)
    ensures |r| == |DisplayTitle(t.title)| + 3 + |t.status|
  {
    var shown := DisplayTitle(t.title);
    var r := shown + " - " + t.status;
    assert r[..|shown|] == shown;
    assert r[|r| - |" - " + t.status|..] == " - " + t.status;
    r
  }

  /** `DownloadSegment.__str__`, given the title of the segment's task. */
  function SegmentLabel(s: Segment, taskTitle: string): (r: string)
    ensures StartsWith(r, "Segment " + IntToString(s.index) + " of ")
    ensures EndsWith(r, DisplayTitle(taskTitle))
  {
    var head := "Segment " + IntToString(s.index) + " of ";
    var r := head + DisplayTitle(taskTitle);
    assert r[..|head|] == head;
    assert r[|r| - |DisplayTitle(taskTitle)|..] == DisplayTitle(taskTitle);
    r
  }

  /** A `TaskHistory` record. */
  datatype HistoryEntry = HistoryEntry(taskId: TaskId, action: string, description: string)

  /** A `DownloadedFile` record. */
  datatype FileRecord = FileRecord(
    filename: string,
    originalName: string,
    filePath: string,
    fileSize: int,
    fileType: string,
    downloadTaskId: TaskId)

  /** A job handed to Celery by `.delay(...)`. */
  datatype Job =
    | StartDownload(taskId: TaskId)
    | DownloadSegments(taskId: TaskId)
    | DownloadSingle(taskId: TaskId, segmentId: nat)
    | CheckCompletion(taskId: TaskId)
    | MergeSegments(taskId: TaskId)
    | CleanupTempFiles(taskId: TaskId)

  // ---------------------------------------------------------------------
  // Segment indices
  // ---------------------------------------------------------------------

  /** The number of records of task `t`. */
  function TaskCount(segs: seq<Segment>, t: TaskId): (n: nat)
    ensures n <= |segs|
  {
    if |segs| == 0 then 0
    else TaskCount(segs[..|segs| - 1], t) + (if segs[|segs| - 1].task == t then 1 else 0)
  }

  /** Each record's index is the number of records of its task before it. */
  predicate Dense(segs: seq<Segment>) {
    forall j :: 0 <= j < |segs| ==> segs[j].index == TaskCount(segs[..j], segs[j].task)
  }

  /** Some record of task `t` has index `k`. */
  predicate HasRecord(segs: seq<Segment>, t: TaskId, k: int) {
    exists j :: 0 <= j < |segs| && segs[j].task == t && segs[j].index == k
  }

  lemma {:induction false} TaskCountMonotone(segs: seq<Segment>, t: TaskId, i: nat, j: nat)
    requires i <= j <= |segs|
    ensures TaskCount(segs[..i], t) <= TaskCount(segs[..j], t)
    ensures i < j && segs[i].task == t ==> TaskCount(segs[..i], t) < TaskCount(segs[..j], t)
    decreases j - i
  {
    if i < j {
      TaskCountMonotone(segs, t, i, j - 1);
      assert segs[..j][..j - 1] == segs[..j - 1];
      if i == j - 1 {
        assert segs[..j][j - 1] == segs[i];
      }
    }
  }

  /** Records of one task come in strictly ascending index order, so `(task, index)` is unique. */
  lemma DenseAscending(segs: seq<Segment>, i: nat, j: nat)
    requires Dense(segs) && i < j < |segs| && segs[i].task == segs[j].task
    ensures segs[i].index < segs[j].index
  {
    TaskCountMonotone(segs, segs[i].task, i, j);
  }

  /** A task's records are exactly indices 0 .. count-1. */
  lemma {:induction false} DenseRecords(segs: seq<Segment>, t: TaskId, k: int)
    requires Dense(segs)
    ensures HasRecord(segs, t, k) <==> 0 <= k < TaskCount(segs, t)
    decreases |segs|
  {
    if |segs| > 0 {
      var front := segs[..|segs| - 1];
      var last := segs[|segs| - 1];
      assert Dense(front) by {
        forall j | 0 <= j < |front| ensures front[j].index == TaskCount(front[..j], front[j].task) {
          assert front[..j] == segs[..j];
        }
      }
      DenseRecords(front, t, k);
      assert last.index == TaskCount(front, last.task);
      if HasRecord(segs, t, k) {
        var j :| 0 <= j < |segs| && segs[j].task == t && segs[j].index == k;
        if j < |front| {
          assert front[j] == segs[j];
        }
      }
      if 0 <= k < TaskCount(segs, t) && k < TaskCount(front, t) {
        var j :| 0 <= j < |front| && front[j].task == t && front[j].index == k;
        assert segs[j] == front[j];
      }
    }
  }

  /** Appending the next index of a task keeps the table dense. */
  lemma DenseAppend(segs: seq<Segment>, s: Segment)
    requires Dense(segs) && s.index == TaskCount(segs, s.task)
    ensures Dense(segs + [s])
  {
    var segs' := segs + [s];
    forall j | 0 <= j < |segs'| ensures segs'[j].index == TaskCount(segs'[..j], segs'[j].task) {
      if j < |segs| {
        assert segs'[..j] == segs[..j];
      } else {
        assert segs'[..j] == segs;
      }
    }
  }

  lemma {:induction false} TaskCountUpdate(segs: seq<Segment>, j: nat, s: Segment, t: TaskId)
    requires j < |segs| && s.task == segs[j].task
    ensures TaskCount(segs[j := s], t) == TaskCount(segs, t)
    decreases |segs|
  {
    var last := |segs| - 1;
    if j < last {
      TaskCountUpdate(segs[..last], j, s, t);
      assert segs[j := s][..last] == segs[..last][j := s];
    } else {
      assert segs[j := s][..last] == segs[..last];
    }
  }

  /** Rewriting a record in place, with its task and index kept, keeps the table dense. */
  lemma DenseUpdate(segs: seq<Segment>, j: nat, s: Segment)
    requires Dense(segs) && j < |segs| && s.task == segs[j].task && s.index == segs[j].index
    ensures Dense(segs[j := s])
  {
    var segs' := segs[j := s];
    forall i | 0 <= i < |segs'| ensures segs'[i].index == TaskCount(segs'[..i], segs'[i].task) {
      if i <= j {
        assert segs'[..i] == segs[..i];
      } else {
        assert segs'[..i] == segs[..i][j := s];
        TaskCountUpdate(segs[..i], j, s, segs'[i].task);
      }
    }
  }

  // ---------------------------------------------------------------------
  // The database
  // ---------------------------------------------------------------------

  /** Every table the Django backend's jobs and views touch, and the Celery queue. */
  datatype Store = Store(
    tasks: map<TaskId, Task>,
    segments: seq<Segment>,
    queue: seq<Job>,
    history: seq<HistoryEntry>,
    files: seq<FileRecord>)

  class Database {
    var tasks: map<TaskId, Task>
    var segments: seq<Segment>
    var queue: seq<Job>
    var history: seq<HistoryEntry>
    var files: seq<FileRecord>

    constructor (initial: Store)
      ensures State() == initial
    {
      tasks, segments, queue, history, files := initial.tasks, initial.segments, initial.queue, initial.history, initial.files;
    }

    function State(): Store
      reads this
    {
      Store(tasks, segments, queue, history, files)
    }
  }
}
