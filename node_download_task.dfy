/**
 * The Express backend's `DownloadTask` (backend-node/models/DownloadTask.js):
 * a task object whose methods change its status, progress and failed
 * segment list in place. Timestamps are the `now` argument of each method.
 */
module NodeDownloadTask {
  import opened Wrappers
  import opened Bytes
  import NodeM3U8Parser

  const Pending := "pending"
  const Parsing := "parsing"
  const Downloading := "downloading"
  const Paused := "paused"
  const Merging := "merging"
  const Completed := "completed"
  const Error := "error"
  const Cancelled := "cancelled"
  const Partial := "partial"

  /** The constructor's `options`; an absent or falsy field is `None`. */
  datatype Options = Options(
    id: string,
    url: string,
    title: string,
    convertToMp4: Option<bool>,
    startSegment: Option<int>,
    endSegment: Option<int>,
    status: Option<string>)

  /** Every field of a task object. */
  datatype TaskState = TaskState(
    id: string,
    url: string,
    title: string,
    convertToMp4: bool,
    startSegment: Option<int>,
    endSegment: Option<int>,
    status: string,
    createdAt: int,
    updatedAt: int,
    segments: seq<NodeM3U8Parser.Segment>,
    totalSegments: nat,
    downloadedSegments: nat,
    failedSegments: seq<NodeM3U8Parser.Segment>,
    progress: int,
    tempDir: string,
    outputFile: string,
    fileSize: nat,
    encryption: Option<NodeM3U8Parser.KeyInfo>,
    encryptionKey: Option<bytes>,
    error: Option<string>,
    downloadSpeed: int)

  /**
   * `Math.round(downloaded / total * 100)`, 0 for no segments, computed
   * exactly: the nearest integer to 100·downloaded/total, halves up.
   */
  function ProgressOf(downloaded: nat, total: nat): (p: int)
    ensures total == 0 ==> p == 0
    ensures total > 0 ==> total * (2 * p - 1) <= 200 * downloaded < total * (2 * p + 1)
  {
    if total == 0 then 0
    else
      var p := (200 * downloaded + total) / (2 * total);
      assert 2 * total * p <= 200 * downloaded + total < 2 * total * p + 2 * total;
      p
  }

  /** Cancelling a positive factor from both sides of `<=`. */
  lemma MulLeCancel(t: int, x: int, y: int)
    requires t > 0 && t * x <= t * y
    ensures x <= y
  {
    if x > y {
      MulLtMono(t, y, x);
    }
  }

  /** Cancelling a positive factor from both sides of `<`. */
  lemma MulLtCancel(t: int, x: int, y: int)
    requires t > 0 && t * x < t * y
    ensures x < y
  {
    if x >= y {
      MulLeMono(t, y, x);
    }
  }

  lemma MulLeMono(t: int, x: int, y: int)
    requires t > 0 && x <= y
    ensures t * x <= t * y
  {
    assert t * y - t * x == t * (y - x);
  }

  lemma MulLtMono(t: int, x: int, y: int)
    requires t > 0 && x < y
    ensures t * x < t * y
  {
    assert t * y - t * x == t * (y - x);
  }

  /** Progress stays within 0..100 while no more segments are counted than there are. */
  lemma ProgressBounds(downloaded: nat, total: nat)
    ensures ProgressOf(downloaded, total) >= 0
    ensures downloaded <= total ==> ProgressOf(downloaded, total) <= 100
    ensures total > 0 && downloaded == total ==> ProgressOf(downloaded, total) == 100
    ensures total > 0 && downloaded == 0 ==> ProgressOf(downloaded, total) == 0
  {
    var p := ProgressOf(downloaded, total);
    if total > 0 {
      assert total * (-1) < total * (2 * p + 1);
      MulLeCancel(total, 0, 2 * p + 1);
      if downloaded <= total {
        assert total * (2 * p - 1) <= total * 200;
        MulLeCancel(total, 2 * p - 1, 200);
      }
      if downloaded == total {
        assert total * 199 < total * (2 * p + 1);
        MulLeCancel(total, 200, 2 * p + 1);
      }
      if downloaded == 0 {
        assert total * (2 * p - 1) <= total * 0;
        MulLeCancel(total, 2 * p - 1, 0);
      }
    }
  }

  /**
   * Progress passes 100 exactly when 200·downloaded >= 201·total, so a
   * count over the total is not always visible: 1001 of 1000 rounds to 100.
   */
  lemma ProgressOverHundred(downloaded: nat, total: nat)
    requires total > 0
    ensures ProgressOf(downloaded, total) > 100 <==> 200 * downloaded >= 201 * total
  {
    var p := ProgressOf(downloaded, total);
    if p > 100 {
      MulLeMono(total, 201, 2 * p - 1);
    }
    if 200 * downloaded >= 201 * total {
      MulLtCancel(total, 201, 2 * p + 1);
    }
  }

  /** More segments downloaded never lowers the progress. */
  lemma ProgressMonotone(d1: nat, d2: nat, total: nat)
    requires d1 <= d2
    ensures ProgressOf(d1, total) <= ProgressOf(d2, total)
  {
    if total > 0 {
      var p1 := ProgressOf(d1, total);
      var p2 := ProgressOf(d2, total);
      MulLtCancel(total, 2 * p1 - 1, 2 * p2 + 1);
    }
  }

  /** What `getStatus()` returns: the failed list is reported by its length. */
  datatype StatusView = StatusView(
    id: string,
    url: string,
    title: string,
    status: string,
    progress: int,
    totalSegments: nat,
    downloadedSegments: nat,
    failedSegments: nat,
    downloadSpeed: int,
    fileSize: nat,
    outputFile: string,
    createdAt: int,
    updatedAt: int,
    error: Option<string>,
    convertToMp4: bool)

  function View(t: TaskState): (v: StatusView)
    ensures v.failedSegments == |t.failedSegments|
    ensures v.status == t.status && v.progress == t.progress && v.id == t.id
    ensures v.totalSegments == t.totalSegments && v.downloadedSegments == t.downloadedSegments
  {
    StatusView(t.id, t.url, t.title, t.status, t.progress, t.totalSegments, t.downloadedSegments,
               |t.failedSegments|, t.downloadSpeed, t.fileSize, t.outputFile, t.createdAt, t.updatedAt,
               t.error, t.convertToMp4)
  }

  /** The object the constructor builds. */
  function Initial(o: Options, now: int): (t: TaskState)
    ensures t.status == (if o.status.Some? && o.status.value != "" then o.status.value else Pending)
    ensures t.totalSegments == 0 && t.downloadedSegments == 0 && t.progress == 0 && t.failedSegments == []
    ensures t.convertToMp4 == o.convertToMp4.GetOr(false)
    ensures t.segments == [] && t.encryption.None? && t.encryptionKey.None? && t.error.None?
  {
    TaskState(o.id, o.url, o.title, o.convertToMp4.GetOr(false), o.startSegment, o.endSegment,
              if o.status.Some? && o.status.value != "" then o.status.value else Pending,
              now, now, [], 0, 0, [], 0, "", "", 0, None, None, None, 0)
  }

  class DownloadTask {
    var id: string
    var url: string
    var title: string
    var convertToMp4: bool
    var startSegment: Option<int>
    var endSegment: Option<int>
    var status: string
    var createdAt: int
    var updatedAt: int
    var segments: seq<NodeM3U8Parser.Segment>
    var totalSegments: nat
    var downloadedSegments: nat
    var failedSegments: seq<NodeM3U8Parser.Segment>
    var progress: int
    var tempDir: string
    var outputFile: string
    var fileSize: nat
    var encryption: Option<NodeM3U8Parser.KeyInfo>
    var encryptionKey: Option<bytes>
    var error: Option<string>
    var downloadSpeed: int

    function State(): TaskState
      reads this
    {
      TaskState(id, url, title, convertToMp4, startSegment, endSegment, status, createdAt, updatedAt,
                segments, totalSegments, downloadedSegments, failedSegments, progress, tempDir, outputFile,
                fileSize, encryption, encryptionKey, error, downloadSpeed)
    }

    constructor (o: Options, now: int)
      ensures State() == Initial(o, now)
    {
      id, url, title := o.id, o.url, o.title;
      convertToMp4 := o.convertToMp4.GetOr(false);
      startSegment, endSegment := o.startSegment, o.endSegment;
      status := if o.status.Some? && o.status.value != "" then o.status.value else Pending;
      createdAt, updatedAt := now, now;
      segments, totalSegments, downloadedSegments, failedSegments, progress := [], 0, 0, [], 0;
      tempDir, outputFile, fileSize := "", "", 0;
      encryption, encryptionKey, error := None, None, None;
      downloadSpeed := 0;
    }

    /** `calculateProgress()`. */
    method CalculateProgress()
      modifies this
      ensures State() == old(State()).(progress := ProgressOf(downloadedSegments, totalSegments))
    {
      if totalSegments == 0 {
        progress := 0;
      } else {
        progress := (200 * downloadedSegments + totalSegments) / (2 * totalSegments);
      }
    }

    /** `updateStatus(status)`: the new status, then the progress recomputed. */
    method UpdateStatus(s: string, now: int)
      modifies this
      ensures State() == old(State()).(status := s, updatedAt := now,
                                       progress := ProgressOf(downloadedSegments, totalSegments))
    {
      status := s;
      updatedAt := now;
      CalculateProgress();
    }

    /** `pause()`. */
    method Pause(now: int)
      modifies this
      ensures State() == PauseOf(old(State()), now)
    {
      if status == Downloading {
        status := Paused;
        updatedAt := now;
      }
    }

    /** `resume()`. */
    method Resume(now: int)
      modifies this
      ensures State() == ResumeOf(old(State()), now)
    {
      if status == Paused {
        status := Downloading;
        updatedAt := now;
      }
    }

    /** `cancel()`. */
    method Cancel(now: int)
      modifies this
      ensures State() == old(State()).(status := Cancelled, updatedAt := now)
    {
      status := Cancelled;
      updatedAt := now;
    }

    /** `retryFailedSegments()`. */
    method RetryFailedSegments(now: int)
      modifies this
      ensures State() == RetryOf(old(State()), now)
    {
      failedSegments := [];
      status := Downloading;
      updatedAt := now;
    }

    /** `getStatus()`. */
    function GetStatus(): (v: StatusView)
      reads this
      ensures v == View(State())
    {
      View(State())
    }
  }

  /** `pause()` on the task value: only a downloading task is paused. */
  function PauseOf(t: TaskState, now: int): TaskState {
    if t.status == Downloading then t.(status := Paused, updatedAt := now) else t
  }

  /** `resume()` on the task value: only a paused task resumes. */
  function ResumeOf(t: TaskState, now: int): TaskState {
    if t.status == Paused then t.(status := Downloading, updatedAt := now) else t
  }

  /** `retryFailedSegments()` on the task value: the list emptied and the task set downloading, whatever its status. */
  function RetryOf(t: TaskState, now: int): TaskState {
    t.(failedSegments := [], status := Downloading, updatedAt := now)
  }

  /**
   * Pausing and resuming undo each other, up to the timestamp: a
   * downloading task paused and resumed, and a paused task resumed and
   * paused, are back where they were.
   */
  lemma PauseResumeRoundTrip(t: TaskState, now1: int, now2: int)
    ensures t.status == Downloading ==> ResumeOf(PauseOf(t, now1), now2) == t.(updatedAt := now2)
    ensures t.status == Paused ==> PauseOf(ResumeOf(t, now1), now2) == t.(updatedAt := now2)
  {
  }

  /**
   * Pause and resume each act on one status only: anything else is left
   * exactly as it was, and doing either twice is doing it once.
   */
  lemma PauseResumeGuards(t: TaskState, now1: int, now2: int)
    ensures t.status != Downloading ==> PauseOf(t, now1) == t
    ensures t.status != Paused ==> ResumeOf(t, now1) == t
    ensures PauseOf(PauseOf(t, now1), now2) == PauseOf(t, now1)
    ensures ResumeOf(ResumeOf(t, now1), now2) == ResumeOf(t, now1)
    ensures View(PauseOf(t, now1)).downloadedSegments == View(t).downloadedSegments
  {
  }

  /**
   * After a retry the status view reports no failed segments, the same
   * downloaded count and status downloading; a second retry changes only
   * the timestamp, and the retried task can be paused.
   */
  lemma RetryClearsFailures(t: TaskState, now1: int, now2: int)
    ensures var r := View(RetryOf(t, now1));
      r.failedSegments == 0 && r.downloadedSegments == t.downloadedSegments && r.status == Downloading
    ensures RetryOf(RetryOf(t, now1), now2) == RetryOf(t, now2)
    ensures PauseOf(RetryOf(t, now1), now2).status == Paused
  {
  }
}
