/**
 * The Django backend's Celery jobs (`downloader/tasks.py`) as steps over
 * the database: each job, run with the outcomes of what it calls into
 * (the playlist parse, the segment download, the merger, the file system),
 * changes the tables exactly as its specification function says, and
 * stands for its `.delay(...)` calls by appending to the job queue.
 */
module DjangoTasks {
  import opened Wrappers
  import opened Text
  import opened Seqs
  import opened Files
  import opened DjangoModels
  import PyM3U8Parser

  const NoSegmentsMessage := "Failed to parse M3U8 file or no segments found"
  const NoFilesMessage := "No segment files found for merging"
  const MergeFailedMessage := "Failed to merge segments"

  /** The message of the `IntegrityError` the database raises for a second `(task, index)` record. */
  const UniqueViolation := "UNIQUE constraint failed: downloader_downloadsegment.task_id, downloader_downloadsegment.index"

  /** A segment whose `retry_count` reaches this is not dispatched again. */
  const SegmentRetryLimit := 3

  /** `os.path.join(tempfile.gettempdir(), f'download_{task_id}')`. */
  function TempDir(tempRoot: string, id: TaskId): string {
    PathJoin(tempRoot, "download_" + id)
  }

  // ---------------------------------------------------------------------
  // start_download_task
  // ---------------------------------------------------------------------

  /** The segment table after the creation loop, and whether it stopped on an `IntegrityError`. */
  datatype Creation = Creation(segments: seq<Segment>, conflict: bool)

  function CreateSegments(segs: seq<Segment>, id: TaskId, urls: seq<string>, now: int): Creation {
    if |urls| == 0 then Creation(segs, false)
    else
      var k := |urls| - 1;
      var c := CreateSegments(segs, id, urls[..k], now);
      if c.conflict || HasRecord(c.segments, id, k) then Creation(c.segments, true)
      else Creation(c.segments + [NewSegment(id, k, urls[k], now)], false)
  }

  /** The history line every start writes. */
  function StartedEntry(t: Task): HistoryEntry {
    HistoryEntry(t.id, "download_started", "Started downloading: " + (if t.title != "" then t.title else t.url))
  }

  /**
   * `start_download_task(id)`, given what `M3U8Parser.parse` returned and
   * the exception `os.makedirs` raised, if any.
   */
  function StartSpec(s: Store, id: TaskId, parsed: PyM3U8Parser.Parsed, now: int, tempRoot: string,
                     dirError: Option<string>): Store
  {
    if id !in s.tasks || s.tasks[id].status != Pending then s
    else
      var t1 := s.tasks[id].(status := Downloading, startedAt := Some(now));
      var h := s.history + [StartedEntry(s.tasks[id])];
      var urls := parsed.segments;
      if |urls| == 0 then
        s.(tasks := s.tasks[id := t1.(status := Failed, errorMessage := NoSegmentsMessage)], history := h)
      else
        var t2 := t1.(totalSegments := |urls|, encryptionKey := parsed.encryption.key.GetOr(""),
                      encryptionIv := parsed.encryption.iv.GetOr(""));
        if dirError.Some? then
          s.(tasks := s.tasks[id := t2.(status := Failed, errorMessage := dirError.value)], history := h)
        else
          var t3 := t2.(tempDir := TempDir(tempRoot, id));
          var c := CreateSegments(s.segments, id, urls, now);
          if c.conflict then
            s.(tasks := s.tasks[id := t3.(status := Failed, errorMessage := UniqueViolation)],
               segments := c.segments, history := h)
          else
            s.(tasks := s.tasks[id := t3], segments := c.segments, history := h,
               queue := s.queue + [DownloadSegments(id)])
  }

  /** Once the creation loop has hit a conflict, later iterations never run. */
  lemma {:induction false} ConflictStops(segs: seq<Segment>, id: TaskId, urls: seq<string>, now: int, i: nat)
    requires i <= |urls| && CreateSegments(segs, id, urls[..i], now).conflict
    ensures CreateSegments(segs, id, urls, now) == CreateSegments(segs, id, urls[..i], now)
    decreases |urls| - i
  {
    if i < |urls| {
      assert urls[..i + 1][..i] == urls[..i];
      ConflictStops(segs, id, urls, now, i + 1);
    } else {
      assert urls[..i] == urls;
    }
  }

  method StartDownloadTask(db: Database, id: TaskId, parsed: PyM3U8Parser.Parsed, now: int,
                           tempRoot: string, dirError: Option<string>)
    modifies db
    ensures db.State() == StartSpec(old(db.State()), id, parsed, now, tempRoot, dirError)
  {
    if id !in db.tasks || db.tasks[id].status != Pending {
      return;
    }
    var task := db.tasks[id];
    db.history := db.history + [StartedEntry(task)];
    task := task.(status := Downloading, startedAt := Some(now));
    var urls := parsed.segments;
    if |urls| == 0 {
      db.tasks := db.tasks[id := task.(status := Failed, errorMessage := NoSegmentsMessage)];
      return;
    }
    task := task.(totalSegments := |urls|, encryptionKey := parsed.encryption.key.GetOr(""),
                  encryptionIv := parsed.encryption.iv.GetOr(""));
    if dirError.Some? {
      db.tasks := db.tasks[id := task.(status := Failed, errorMessage := dirError.value)];
      return;
    }
    task := task.(tempDir := TempDir(tempRoot, id));
    var conflict := CreateSegmentRecords(db, id, urls, now);
    if conflict {
      db.tasks := db.tasks[id := task.(status := Failed, errorMessage := UniqueViolation)];
      return;
    }
    db.tasks := db.tasks[id := task];
    db.queue := db.queue + [DownloadSegments(id)];
  }

  /**
   * The loop `for i, url in enumerate(segments): DownloadSegment.objects.create(...)`,
   * stopping at the first `(id, i)` that is already recorded.
   */
  method CreateSegmentRecords(db: Database, id: TaskId, urls: seq<string>, now: int) returns (conflict: bool)
    modifies db
    ensures Creation(db.segments, conflict) == CreateSegments(old(db.segments), id, urls, now)
    ensures db.tasks == old(db.tasks) && db.queue == old(db.queue)
    ensures db.history == old(db.history) && db.files == old(db.files)
  {
    ghost var before := db.segments;
    for i := 0 to |urls|
      invariant db.tasks == old(db.tasks) && db.history == old(db.history)
      invariant db.queue == old(db.queue) && db.files == old(db.files) && before == old(db.segments)
      invariant CreateSegments(before, id, urls[..i], now) == Creation(db.segments, false)
    {
      assert urls[..i + 1][..i] == urls[..i];
      if HasRecord(db.segments, id, i) {
        ConflictStops(before, id, urls, now, i + 1);
        return true;
      }
      db.segments := db.segments + [NewSegment(id, i, urls[i], now)];
    }
    assert urls[..|urls|] == urls;
    return false;
  }

  /** The records a start makes for a task that has none. */
  function FreshSegments(id: TaskId, urls: seq<string>, now: int): (r: seq<Segment>)
    ensures |r| == |urls|
    ensures forall i :: 0 <= i < |urls| ==> r[i] == NewSegment(id, i, urls[i], now)
  {
    seq(|urls|, i requires 0 <= i < |urls| => NewSegment(id, i, urls[i], now))
  }

  /** The fresh records for n+1 URLs are those for the first n and one more. */
  lemma FreshSegmentsSnoc(id: TaskId, urls: seq<string>, now: int)
    requires |urls| > 0
    ensures FreshSegments(id, urls, now)
         == FreshSegments(id, urls[..|urls| - 1], now) + [NewSegment(id, |urls| - 1, urls[|urls| - 1], now)]
  {
  }

  /** Appending the record with the task's next index: no conflict, still dense, one more record. */
  lemma FreshStep(front: seq<Segment>, s: Segment)
    requires Dense(front) && s.index == TaskCount(front, s.task)
    ensures !HasRecord(front, s.task, s.index)
    ensures Dense(front + [s])
    ensures TaskCount(front + [s], s.task) == s.index + 1
  {
    DenseRecords(front, s.task, s.index);
    DenseAppend(front, s);
    assert (front + [s])[..|front|] == front;
  }

  /** For a task without records, creation appends indices 0 .. n-1 in order and keeps the table dense. */
  lemma {:induction false} CreateFresh(segs: seq<Segment>, id: TaskId, urls: seq<string>, now: int)
    requires Dense(segs) && TaskCount(segs, id) == 0
    ensures CreateSegments(segs, id, urls, now) == Creation(segs + FreshSegments(id, urls, now), false)
    ensures Dense(segs + FreshSegments(id, urls, now))
    ensures TaskCount(segs + FreshSegments(id, urls, now), id) == |urls|
  {
    if |urls| > 0 {
      var k := |urls| - 1;
      CreateFresh(segs, id, urls[..k], now);
      var front := segs + FreshSegments(id, urls[..k], now);
      var s := NewSegment(id, k, urls[k], now);
      FreshStep(front, s);
      FreshSegmentsSnoc(id, urls, now);
      assert front + [s] == segs + FreshSegments(id, urls, now);
    } else {
      assert segs + FreshSegments(id, urls, now) == segs;
    }
  }

  /** A task that already has records stops at index 0 and creates nothing. */
  lemma {:induction false} CreateOverExisting(segs: seq<Segment>, id: TaskId, urls: seq<string>, now: int)
    requires Dense(segs) && TaskCount(segs, id) > 0 && |urls| > 0
    ensures CreateSegments(segs, id, urls, now) == Creation(segs, true)
  {
    DenseRecords(segs, id, 0);
    assert urls[..1][..0] == [];
    assert CreateSegments(segs, id, urls[..1], now) == Creation(segs, true);
    ConflictStops(segs, id, urls, now, 1);
  }

  /** Starting acts only on a pending task. */
  lemma StartOnlyWhenPending(s: Store, id: TaskId, parsed: PyM3U8Parser.Parsed, now: int, tempRoot: string,
                             dirError: Option<string>)
    requires id !in s.tasks || s.tasks[id].status != Pending
    ensures StartSpec(s, id, parsed, now, tempRoot, dirError) == s
  {
  }

  /** A parse without segments fails the task and creates nothing. */
  lemma StartWithoutSegmentsFails(s: Store, id: TaskId, parsed: PyM3U8Parser.Parsed, now: int, tempRoot: string,
                                  dirError: Option<string>)
    requires id in s.tasks && s.tasks[id].status == Pending && |parsed.segments| == 0
    ensures var r := StartSpec(s, id, parsed, now, tempRoot, dirError);
      r.tasks[id].status == Failed && r.tasks[id].errorMessage == NoSegmentsMessage
      && r.segments == s.segments && r.queue == s.queue
  {
  }

  /**
   * A first start records segments 0 .. n-1 with the playlist's URLs in
   * order, sets `total_segments` to n and dispatches the download job.
   */
  lemma StartCreatesRecords(s: Store, id: TaskId, parsed: PyM3U8Parser.Parsed, now: int, tempRoot: string)
    requires Dense(s.segments) && id in s.tasks && s.tasks[id].status == Pending
    requires |parsed.segments| > 0 && TaskCount(s.segments, id) == 0
    ensures var r := StartSpec(s, id, parsed, now, tempRoot, None);
      && r.segments == s.segments + FreshSegments(id, parsed.segments, now)
      && Dense(r.segments)
      && r.tasks[id].status == Downloading && r.tasks[id].totalSegments == |parsed.segments|
      && r.tasks[id].tempDir == TempDir(tempRoot, id)
      && r.queue == s.queue + [DownloadSegments(id)]
  {
    CreateFresh(s.segments, id, parsed.segments, now);
  }

  /** A start over existing records fails with the database's uniqueness error and creates nothing. */
  lemma StartOverRecordsFails(s: Store, id: TaskId, parsed: PyM3U8Parser.Parsed, now: int, tempRoot: string)
    requires Dense(s.segments) && id in s.tasks && s.tasks[id].status == Pending
    requires |parsed.segments| > 0 && TaskCount(s.segments, id) > 0
    ensures var r := StartSpec(s, id, parsed, now, tempRoot, None);
      r.tasks[id].status == Failed && r.tasks[id].errorMessage == UniqueViolation
      && r.segments == s.segments && r.queue == s.queue
  {
    CreateOverExisting(s.segments, id, parsed.segments, now);
  }

  /** Starting keeps the segment table dense. */
  lemma StartKeepsDense(s: Store, id: TaskId, parsed: PyM3U8Parser.Parsed, now: int, tempRoot: string,
                        dirError: Option<string>)
    requires Dense(s.segments)
    ensures Dense(StartSpec(s, id, parsed, now, tempRoot, dirError).segments)
  {
    if id in s.tasks && s.tasks[id].status == Pending && |parsed.segments| > 0 && dirError.None? {
      if TaskCount(s.segments, id) == 0 {
        CreateFresh(s.segments, id, parsed.segments, now);
      } else {
        CreateOverExisting(s.segments, id, parsed.segments, now);
      }
    }
  }

  // ---------------------------------------------------------------------
  // The corrected start: existing records are reset, not re-created
  // ---------------------------------------------------------------------

  /** A record restored to the state of a new one, with the playlist's URL. */
  function ResetSegment(s: Segment, url: string, now: int): (r: Segment)
    ensures r == NewSegment(s.task, s.index, url, now)
  {
    NewSegment(s.task, s.index, url, now)
  }

  /** The position of record `(t, k)`, or -1. */
  function RecordPosition(segs: seq<Segment>, t: TaskId, k: int): (r: int)
    ensures -1 <= r < |segs|
    ensures r >= 0 ==> segs[r].task == t && segs[r].index == k
    ensures r < 0 <==> !HasRecord(segs, t, k)
  {
    if |segs| == 0 then -1
    else if segs[0].task == t && segs[0].index == k then 0
    else
      var r := RecordPosition(segs[1..], t, k);
      assert forall j :: 0 < j < |segs| ==> segs[j] == segs[1..][j - 1];
      if r < 0 then -1 else r + 1
  }

  /** One iteration of the corrected loop: reset record `(id, k)` if it exists, else append it. */
  function ResetOrAppend(front: seq<Segment>, id: TaskId, k: nat, url: string, now: int): seq<Segment> {
    var j := RecordPosition(front, id, k);
    if j >= 0 then front[j := ResetSegment(front[j], url, now)]
    else front + [NewSegment(id, k, url, now)]
  }

  /**
   * `update_or_create` in place of `create`: a record `(id, i)` that
   * exists is reset, a missing one is appended.
   */
  function CreateOrReset(segs: seq<Segment>, id: TaskId, urls: seq<string>, now: int): seq<Segment> {
    if |urls| == 0 then segs
    else ResetOrAppend(CreateOrReset(segs, id, urls[..|urls| - 1], now), id, |urls| - 1, urls[|urls| - 1], now)
  }

  /** What the loop leaves: dense, and a new-state record with the right URL for each index. */
  predicate Restarted(segs: seq<Segment>, id: TaskId, urls: seq<string>, now: int) {
    && Dense(segs)
    && TaskCount(segs, id) >= |urls|
    && forall j :: 0 <= j < |segs| && segs[j].task == id && segs[j].index < |urls| ==>
         segs[j] == NewSegment(id, segs[j].index, urls[segs[j].index], now)
  }

  /** Resetting the existing record `(id, k)` extends the restarted prefix by one URL. */
  lemma ResetStep(front: seq<Segment>, id: TaskId, urls: seq<string>, now: int)
    requires |urls| > 0 && Restarted(front, id, urls[..|urls| - 1], now)
    requires RecordPosition(front, id, |urls| - 1) >= 0
    ensures Restarted(ResetOrAppend(front, id, |urls| - 1, urls[|urls| - 1], now), id, urls, now)
  {
    var k := |urls| - 1;
    var j := RecordPosition(front, id, k);
    var seg := ResetSegment(front[j], urls[k], now);
    var r := front[j := seg];
    DenseRecords(front, id, k);
    DenseUpdate(front, j, seg);
    TaskCountUpdate(front, j, seg, id);
    forall i | 0 <= i < |r| && r[i].task == id && r[i].index < |urls|
      ensures r[i] == NewSegment(id, r[i].index, urls[r[i].index], now)
    {
      if i != j {
        assert r[i] == front[i];
        if front[i].index == k {
          if i < j { DenseAscending(front, i, j); } else { DenseAscending(front, j, i); }
        }
        assert urls[..k][front[i].index] == urls[front[i].index];
      }
    }
  }

  /** Appending the missing record `(id, k)` extends the restarted prefix by one URL. */
  lemma AppendStep(front: seq<Segment>, id: TaskId, urls: seq<string>, now: int)
    requires |urls| > 0 && Restarted(front, id, urls[..|urls| - 1], now)
    requires RecordPosition(front, id, |urls| - 1) < 0
    ensures Restarted(ResetOrAppend(front, id, |urls| - 1, urls[|urls| - 1], now), id, urls, now)
  {
    var k := |urls| - 1;
    var s := NewSegment(id, k, urls[k], now);
    var r := front + [s];
    DenseRecords(front, id, k);
    DenseAppend(front, s);
    assert r[..|front|] == front;
    forall i | 0 <= i < |r| && r[i].task == id && r[i].index < |urls|
      ensures r[i] == NewSegment(id, r[i].index, urls[r[i].index], now)
    {
      if i < |front| {
        assert r[i] == front[i];
        assert urls[..k][front[i].index] == urls[front[i].index];
      }
    }
  }

  lemma {:induction false} CreateOrResetRestarts(segs: seq<Segment>, id: TaskId, urls: seq<string>, now: int)
    requires Dense(segs)
    ensures Restarted(CreateOrReset(segs, id, urls, now), id, urls, now)
  {
    if |urls| > 0 {
      var front := CreateOrReset(segs, id, urls[..|urls| - 1], now);
      CreateOrResetRestarts(segs, id, urls[..|urls| - 1], now);
      if RecordPosition(front, id, |urls| - 1) >= 0 {
        ResetStep(front, id, urls, now);
      } else {
        AppendStep(front, id, urls, now);
      }
    }
  }

  /** `start_download_task` with the records of a previous run reset instead of re-created. */
  function StartReusingSpec(s: Store, id: TaskId, parsed: PyM3U8Parser.Parsed, now: int, tempRoot: string,
                            dirError: Option<string>): Store
  {
    if id !in s.tasks || s.tasks[id].status != Pending then s
    else
      var t1 := s.tasks[id].(status := Downloading, startedAt := Some(now));
      var h := s.history + [StartedEntry(s.tasks[id])];
      var urls := parsed.segments;
      if |urls| == 0 then
        s.(tasks := s.tasks[id := t1.(status := Failed, errorMessage := NoSegmentsMessage)], history := h)
      else
        var t2 := t1.(totalSegments := |urls|, encryptionKey := parsed.encryption.key.GetOr(""),
                      encryptionIv := parsed.encryption.iv.GetOr(""));
        if dirError.Some? then
          s.(tasks := s.tasks[id := t2.(status := Failed, errorMessage := dirError.value)], history := h)
        else
          s.(tasks := s.tasks[id := t2.(tempDir := TempDir(tempRoot, id))],
             segments := CreateOrReset(s.segments, id, urls, now), history := h,
             queue := s.queue + [DownloadSegments(id)])
  }

  /**
   * The corrected start always gets going: the task is downloading, every
   * index below n has one record, back in its new state with the new URL,
   * and the download job is dispatched.
   */
  lemma StartReusingRestarts(s: Store, id: TaskId, parsed: PyM3U8Parser.Parsed, now: int, tempRoot: string)
    requires Dense(s.segments) && id in s.tasks && s.tasks[id].status == Pending && |parsed.segments| > 0
    ensures var r := StartReusingSpec(s, id, parsed, now, tempRoot, None);
      && r.tasks[id].status == Downloading && r.tasks[id].totalSegments == |parsed.segments|
      && Restarted(r.segments, id, parsed.segments, now)
      && (forall i :: 0 <= i < |parsed.segments| ==> HasRecord(r.segments, id, i))
      && r.queue == s.queue + [DownloadSegments(id)]
  {
    var segs := CreateOrReset(s.segments, id, parsed.segments, now);
    CreateOrResetRestarts(s.segments, id, parsed.segments, now);
    forall i | 0 <= i < |parsed.segments| ensures HasRecord(segs, id, i) {
      DenseRecords(segs, id, i);
    }
  }

  // ---------------------------------------------------------------------
  // download_segments
  // ---------------------------------------------------------------------

  /** A pending record of task `id`. */
  function PendingOf(id: TaskId): Segment -> bool {
    (s: Segment) => s.task == id && s.status == Pending
  }

  /** One `download_single_segment` job per segment id, in order. */
  function SingleJobs(id: TaskId, ps: seq<nat>): (r: seq<Job>)
    ensures |r| == |ps|
    ensures forall k :: 0 <= k < |ps| ==> r[k] == DownloadSingle(id, ps[k])
  {
    if |ps| == 0 then [] else SingleJobs(id, ps[..|ps| - 1]) + [DownloadSingle(id, ps[|ps| - 1])]
  }

  lemma SingleJobsSnoc(id: TaskId, ps: seq<nat>, j: nat)
    ensures SingleJobs(id, ps + [j]) == SingleJobs(id, ps) + [DownloadSingle(id, j)]
  {
    assert (ps + [j])[..|ps|] == ps;
  }

  /**
   * `download_segments(id)`: for a downloading task, one job per pending
   * segment, then the completion check. The in-loop status test reads the
   * task object loaded before the loop, so it never stops the loop.
   */
  function DispatchSpec(s: Store, id: TaskId): Store {
    if id !in s.tasks || s.tasks[id].status != Downloading then s
    else s.(queue := s.queue + SingleJobs(id, Where(s.segments, PendingOf(id))) + [CheckCompletion(id)])
  }

  method DownloadSegmentsJob(db: Database, id: TaskId)
    modifies db
    ensures db.State() == DispatchSpec(old(db.State()), id)
  {
    if id !in db.tasks || db.tasks[id].status != Downloading {
      return;
    }
    var segs := db.segments;
    var jobs: seq<Job> := [];
    for j := 0 to |segs|
      invariant unchanged(db)
      invariant jobs == SingleJobs(id, Where(segs[..j], PendingOf(id)))
    {
      PendingJobsStep(id, segs, j);
      if segs[j].task == id && segs[j].status == Pending {
        jobs := jobs + [DownloadSingle(id, j)];
      }
    }
    assert segs[..|segs|] == segs;
    db.queue := db.queue + jobs + [CheckCompletion(id)];
  }

  /** One turn of the dispatch loop: a job for segment `j` exactly when it is pending. */
  lemma PendingJobsStep(id: TaskId, segs: seq<Segment>, j: nat)
    requires j < |segs|
    ensures SingleJobs(id, Where(segs[..j + 1], PendingOf(id)))
         == SingleJobs(id, Where(segs[..j], PendingOf(id)))
            + (if segs[j].task == id && segs[j].status == Pending then [DownloadSingle(id, j)] else [])
  {
    WhereStep(segs, PendingOf(id), j);
    if PendingOf(id)(segs[j]) {
      SingleJobsSnoc(id, Where(segs[..j], PendingOf(id)), j);
    } else {
      assert Where(segs[..j], PendingOf(id)) + [] == Where(segs[..j], PendingOf(id));
    }
  }

  /** The positions a predicate picks out, when it only holds for records of task `id`, have ascending indices. */
  lemma WhereAscendingIndex(segs: seq<Segment>, p: Segment -> bool, id: TaskId)
    requires Dense(segs) && forall x :: p(x) ==> x.task == id
    ensures var ps := Where(segs, p);
      forall k, l :: 0 <= k < l < |ps| ==> segs[ps[k]].index < segs[ps[l]].index
  {
    var ps := Where(segs, p);
    forall k, l | 0 <= k < l < |ps| ensures segs[ps[k]].index < segs[ps[l]].index {
      DenseAscending(segs, ps[k], ps[l]);
    }
  }

  /**
   * The dispatched jobs name exactly the pending segments of the task, each
   * once, in ascending index order, and the completion check comes last.
   */
  lemma DispatchInIndexOrder(s: Store, id: TaskId) returns (jobs: seq<Job>)
    requires Dense(s.segments) && id in s.tasks && s.tasks[id].status == Downloading
    ensures DispatchSpec(s, id).queue == s.queue + jobs + [CheckCompletion(id)]
    ensures forall k :: 0 <= k < |jobs| ==>
      && jobs[k].DownloadSingle? && jobs[k].taskId == id
      && jobs[k].segmentId < |s.segments| && PendingOf(id)(s.segments[jobs[k].segmentId])
    ensures forall k, l :: 0 <= k < l < |jobs| ==>
      s.segments[jobs[k].segmentId].index < s.segments[jobs[l].segmentId].index
    ensures forall j :: 0 <= j < |s.segments| && PendingOf(id)(s.segments[j]) ==> DownloadSingle(id, j) in jobs
  {
    var ps := Where(s.segments, PendingOf(id));
    jobs := SingleJobs(id, ps);
    forall k, l | 0 <= k < l < |jobs|
      ensures s.segments[jobs[k].segmentId].index < s.segments[jobs[l].segmentId].index
    {
      assert jobs[k].segmentId == ps[k] && jobs[l].segmentId == ps[l];
      DenseAscending(s.segments, ps[k], ps[l]);
    }
    forall j | 0 <= j < |s.segments| && PendingOf(id)(s.segments[j]) ensures DownloadSingle(id, j) in jobs {
      var k :| 0 <= k < |ps| && ps[k] == j;
      assert jobs[k] == DownloadSingle(id, j);
    }
  }

  // ---------------------------------------------------------------------
  // download_single_segment
  // ---------------------------------------------------------------------

  /** A completed record of task `id`. */
  function CompletedOf(id: TaskId): Segment -> bool {
    (s: Segment) => s.task == id && s.status == Completed
  }

  /** `task.segments.filter(status='completed').count()`. */
  function CompletedCount(segs: seq<Segment>, id: TaskId): nat {
    Count(segs, CompletedOf(id))
  }

  /** `(completed / total) * 100`. */
  function Progress(completed: nat, total: int): real
    requires total != 0
  {
    completed as real / total as real * 100.0
  }

  /**
   * `download_single_segment(id, segmentId)`, given the path
   * `SegmentDownloader.download_segment` returned (`None` when every
   * attempt failed) and the size of the file found there.
   */
  function SingleSpec(s: Store, id: TaskId, segId: nat, fetched: Option<string>, size: nat, now: int): Store {
    if id !in s.tasks || segId >= |s.segments| || s.tasks[id].status != Downloading then s
    else
      var t := s.tasks[id];
      var seg := s.segments[segId];
      match fetched
      case Some(path) =>
        var segs := s.segments[segId := seg.(status := Completed, filePath := path, fileSize := Some(size),
                                             completedAt := Some(now))];
        var done := CompletedCount(segs, id);
        if t.totalSegments == 0 then s.(segments := segs)
        else s.(segments := segs, tasks := s.tasks[id := t.(downloadedSegments := done,
                                                            progress := Progress(done, t.totalSegments))])
      case None =>
        var seg' := seg.(status := Failed, retryCount := seg.retryCount + 1);
        var s1 := s.(segments := s.segments[segId := seg'],
                     tasks := s.tasks[id := t.(failedSegments := t.failedSegments + 1)]);
        if seg'.retryCount < SegmentRetryLimit then s1.(queue := s.queue + [DownloadSingle(id, segId)]) else s1
  }

  method DownloadSingleSegment(db: Database, id: TaskId, segId: nat, fetched: Option<string>, size: nat, now: int)
    modifies db
    ensures db.State() == SingleSpec(old(db.State()), id, segId, fetched, size, now)
  {
    if id !in db.tasks || segId >= |db.segments| {
      return;
    }
    var task := db.tasks[id];
    var segment := db.segments[segId];
    if task.status != Downloading {
      return;
    }
    db.segments := db.segments[segId := segment.(status := Downloading)];
    if fetched.Some? {
      segment := segment.(status := Completed, filePath := fetched.value, fileSize := Some(size),
                          completedAt := Some(now));
      db.segments := db.segments[segId := segment];
      assert db.segments == old(db.segments)[segId := segment];
      var completed := CompletedCount(db.segments, id);
      task := task.(downloadedSegments := completed);
      if task.totalSegments == 0 {
        return;
      }
      task := task.(progress := Progress(completed, task.totalSegments));
      db.tasks := db.tasks[id := task];
    } else {
      segment := segment.(status := Failed, retryCount := segment.retryCount + 1);
      db.segments := db.segments[segId := segment];
      assert db.segments == old(db.segments)[segId := segment];
      task := task.(failedSegments := task.failedSegments + 1);
      db.tasks := db.tasks[id := task];
      if segment.retryCount < SegmentRetryLimit {
        db.queue := db.queue + [DownloadSingle(id, segId)];
      }
    }
  }

  /** A completed download sets `downloaded_segments` to the count of completed records and progress to its share. */
  lemma SuccessCountsCompleted(s: Store, id: TaskId, segId: nat, path: string, size: nat, now: int)
    requires id in s.tasks && segId < |s.segments| && s.tasks[id].status == Downloading
    requires s.tasks[id].totalSegments != 0
    ensures var r := SingleSpec(s, id, segId, Some(path), size, now);
      && r.segments[segId].status == Completed && r.segments[segId].filePath == path
      && r.tasks[id].downloadedSegments == CompletedCount(r.segments, id)
      && r.tasks[id].progress == Progress(CompletedCount(r.segments, id), s.tasks[id].totalSegments)
      && r.queue == s.queue
  {
  }

  /**
   * A failed download adds one to the segment's `retry_count` and one to the
   * task's `failed_segments`, and dispatches the segment again exactly when
   * its new count is below 3.
   */
  lemma FailureCountsAttempt(s: Store, id: TaskId, segId: nat, size: nat, now: int)
    requires id in s.tasks && segId < |s.segments| && s.tasks[id].status == Downloading
    ensures var r := SingleSpec(s, id, segId, None, size, now);
      && r.segments[segId].status == Failed
      && r.segments[segId].retryCount == s.segments[segId].retryCount + 1
      && r.tasks[id].failedSegments == s.tasks[id].failedSegments + 1
      && (r.queue == s.queue + [DownloadSingle(id, segId)] <==> s.segments[segId].retryCount + 1 < SegmentRetryLimit)
      && (r.queue == s.queue <==> s.segments[segId].retryCount + 1 >= SegmentRetryLimit)
  {
  }

  /** A job for a task that is not downloading changes nothing. */
  lemma SingleOnlyWhileDownloading(s: Store, id: TaskId, segId: nat, fetched: Option<string>, size: nat, now: int)
    requires id in s.tasks && s.tasks[id].status != Downloading
    ensures SingleSpec(s, id, segId, fetched, size, now) == s
  {
  }

  /** The single-segment job keeps each record's task and index, so the table stays dense. */
  lemma SingleKeepsDense(s: Store, id: TaskId, segId: nat, fetched: Option<string>, size: nat, now: int)
    requires Dense(s.segments)
    ensures Dense(SingleSpec(s, id, segId, fetched, size, now).segments)
  {
    if id in s.tasks && segId < |s.segments| && s.tasks[id].status == Downloading {
      var seg := s.segments[segId];
      match fetched
      case Some(path) =>
        DenseUpdate(s.segments, segId, seg.(status := Completed, filePath := path, fileSize := Some(size),
                                            completedAt := Some(now)));
      case None =>
        DenseUpdate(s.segments, segId, seg.(status := Failed, retryCount := seg.retryCount + 1));
    }
  }

  // ---------------------------------------------------------------------
  // check_download_completion
  // ---------------------------------------------------------------------

  function FailedDownloadMessage(n: int): string {
    "Failed to download " + IntToString(n) + " segments"
  }

  /** `check_download_completion(id)`; the task's status is not consulted. */
  function CheckSpec(s: Store, id: TaskId): Store {
    if id !in s.tasks then s
    else
      var t := s.tasks[id];
      var done := CompletedCount(s.segments, id);
      if done == t.totalSegments then
        s.(tasks := s.tasks[id := t.(status := Merging)],
           history := s.history + [HistoryEntry(id, "merge_started", "Starting to merge segments")],
           queue := s.queue + [MergeSegments(id)])
      else if t.failedSegments > 0 && done + t.failedSegments == t.totalSegments then
        s.(tasks := s.tasks[id := t.(status := Failed, errorMessage := FailedDownloadMessage(t.failedSegments))],
           history := s.history + [HistoryEntry(id, "download_failed",
             "Download failed: " + IntToString(t.failedSegments) + " segments could not be downloaded")])
      else s
  }

  method CheckDownloadCompletion(db: Database, id: TaskId)
    modifies db
    ensures db.State() == CheckSpec(old(db.State()), id)
  {
    if id !in db.tasks {
      return;
    }
    var task := db.tasks[id];
    var completed := CompletedCount(db.segments, id);
    var total := task.totalSegments;
    if completed == total {
      db.tasks := db.tasks[id := task.(status := Merging)];
      db.history := db.history + [HistoryEntry(id, "merge_started", "Starting to merge segments")];
      db.queue := db.queue + [MergeSegments(id)];
    } else if task.failedSegments > 0 && completed + task.failedSegments == total {
      db.tasks := db.tasks[id := task.(status := Failed, errorMessage := FailedDownloadMessage(task.failedSegments))];
      db.history := db.history + [HistoryEntry(id, "download_failed",
        "Download failed: " + IntToString(task.failedSegments) + " segments could not be downloaded")];
    }
  }

  /**
   * The completion check moves to `merging` exactly when every segment is
   * completed, to `failed` exactly when the failures make up the rest, and
   * otherwise leaves the store alone, whatever the current status is.
   */
  lemma CheckDecides(s: Store, id: TaskId)
    requires id in s.tasks
    ensures var t := s.tasks[id];
      var done := CompletedCount(s.segments, id);
      var r := CheckSpec(s, id);
      && (r.tasks[id].status == Merging && r.queue == s.queue + [MergeSegments(id)] <==> done == t.totalSegments)
      && ((done != t.totalSegments && t.failedSegments > 0 && done + t.failedSegments == t.totalSegments) ==>
            && r.tasks[id].status == Failed && r.tasks[id].errorMessage == FailedDownloadMessage(t.failedSegments)
            && r.queue == s.queue)
      && ((done != t.totalSegments && !(t.failedSegments > 0 && done + t.failedSegments == t.totalSegments)) ==>
            r == s)
  {
    var t := s.tasks[id];
    if CompletedCount(s.segments, id) != t.totalSegments {
      assert CheckSpec(s, id).queue == s.queue;
      assert |s.queue + [MergeSegments(id)]| != |s.queue|;
    }
  }

  /** A cancelled task whose segments are all completed is still moved to `merging`. */
  lemma CheckIgnoresCancellation(s: Store, id: TaskId)
    requires id in s.tasks && s.tasks[id].status == Cancelled
    requires CompletedCount(s.segments, id) == s.tasks[id].totalSegments
    ensures CheckSpec(s, id).tasks[id].status == Merging
  {
  }

  // ---------------------------------------------------------------------
  // merge_segments
  // ---------------------------------------------------------------------

  /** A completed record of task `id` whose file exists. */
  function MergeableOf(id: TaskId, present: string -> bool): Segment -> bool {
    (s: Segment) => s.task == id && s.status == Completed && present(s.filePath)
  }

  /** The file paths of the records at `ps`. */
  function PathsAt(segs: seq<Segment>, ps: seq<nat>): (r: seq<string>)
    requires forall k :: 0 <= k < |ps| ==> ps[k] < |segs|
    ensures |r| == |ps| && forall k :: 0 <= k < |ps| ==> r[k] == segs[ps[k]].filePath
  {
    seq(|ps|, k requires 0 <= k < |ps| => segs[ps[k]].filePath)
  }

  /** `segment_files`: the completed segments' files that exist, by position. */
  function MergeInputs(segs: seq<Segment>, id: TaskId, present: string -> bool): seq<string> {
    PathsAt(segs, Where(segs, MergeableOf(id, present)))
  }

  /** `title or f'download_{id}'`, with `.mp4` appended unless it is there already. */
  function OutputFileName(title: string, id: TaskId): (r: string)
    ensures EndsWith(r, ".mp4")
  {
    var base := if title != "" then title else "download_" + id;
    if EndsWith(base, ".mp4") then base
    else
      assert (base + ".mp4")[|base|..] == ".mp4";
      base + ".mp4"
  }

  /** `task.output_path`, or `os.path.join` of `~/Downloads` and the file name. */
  function OutputPathOf(t: Task, id: TaskId, home: string): string {
    if t.outputPath != "" then t.outputPath else PyPathJoin(PathJoin(home, "Downloads"), OutputFileName(t.title, id))
  }

  /**
   * `merge_segments(id)`, given `os.path.exists`, the merger (returning
   * `VideoMerger.merge_segments`'s result for a file list and an output
   * path), the output's size and the home directory.
   */
  function MergeSpec(s: Store, id: TaskId, present: string -> bool, merge: (seq<string>, string) -> bool,
                     size: string -> nat, home: string, now: int): Store
  {
    if id !in s.tasks || s.tasks[id].status != Merging then s
    else
      var t := s.tasks[id];
      var inputs := MergeInputs(s.segments, id, present);
      if |inputs| == 0 then s.(tasks := s.tasks[id := t.(status := Failed, errorMessage := NoFilesMessage)])
      else
        var name := OutputFileName(t.title, id);
        var out := OutputPathOf(t, id, home);
        if merge(inputs, out) then
          s.(tasks := s.tasks[id := t.(status := Completed, completedAt := Some(now), outputPath := out)],
             files := s.files + [FileRecord(Basename(out), t.title, out, size(out), "video", id)],
             history := s.history + [HistoryEntry(id, "download_completed", "Download completed: " + name)],
             queue := s.queue + [CleanupTempFiles(id)])
        else
          s.(tasks := s.tasks[id := t.(status := Failed, errorMessage := MergeFailedMessage)],
             history := s.history + [HistoryEntry(id, "merge_failed", "Failed to merge segments into final video")])
  }

  method MergeSegmentsJob(db: Database, id: TaskId, present: string -> bool, merge: (seq<string>, string) -> bool,
                          size: string -> nat, home: string, now: int)
    modifies db
    ensures db.State() == MergeSpec(old(db.State()), id, present, merge, size, home, now)
  {
    ghost var s := db.State();
    if id !in db.tasks || db.tasks[id].status != Merging {
      return;
    }
    var task := db.tasks[id];
    var segmentFiles := MergeInputs(db.segments, id, present);
    if |segmentFiles| == 0 {
      db.tasks := db.tasks[id := task.(status := Failed, errorMessage := NoFilesMessage)];
      return;
    }
    var outputFilename := OutputFileName(task.title, id);
    var outputPath := OutputPathOf(task, id, home);
    var success := merge(segmentFiles, outputPath);
    var record := FileRecord(Basename(outputPath), task.title, outputPath, size(outputPath), "video", id);
    var completed := HistoryEntry(id, "download_completed", "Download completed: " + outputFilename);
    var failed := HistoryEntry(id, "merge_failed", "Failed to merge segments into final video");
    ghost var done := s.(tasks := s.tasks[id := task.(status := Completed, completedAt := Some(now), outputPath := outputPath)],
                         files := s.files + [record], history := s.history + [completed],
                         queue := s.queue + [CleanupTempFiles(id)]);
    ghost var refused := s.(tasks := s.tasks[id := task.(status := Failed, errorMessage := MergeFailedMessage)],
                            history := s.history + [failed]);
    assert MergeSpec(s, id, present, merge, size, home, now) == if success then done else refused;
    if success {
      db.tasks := db.tasks[id := task.(status := Completed, completedAt := Some(now), outputPath := outputPath)];
      db.files := db.files + [record];
      db.history := db.history + [completed];
      db.queue := db.queue + [CleanupTempFiles(id)];
      assert db.State() == done;
    } else {
      db.tasks := db.tasks[id := task.(status := Failed, errorMessage := MergeFailedMessage)];
      db.history := db.history + [failed];
      assert db.State() == refused;
    }
  }

  /**
   * The merger is handed the files of the task's completed segments that
   * exist, each once, in ascending index order.
   */
  lemma MergeInputsInIndexOrder(segs: seq<Segment>, id: TaskId, present: string -> bool)
    requires Dense(segs)
    ensures var ps := Where(segs, MergeableOf(id, present));
      && MergeInputs(segs, id, present) == PathsAt(segs, ps)
      && (forall k :: 0 <= k < |ps| ==>
            && segs[ps[k]].task == id && segs[ps[k]].status == Completed
            && present(segs[ps[k]].filePath))
      && (forall k, l :: 0 <= k < l < |ps| ==> segs[ps[k]].index < segs[ps[l]].index)
      && (forall j :: 0 <= j < |segs| && segs[j].task == id && segs[j].status == Completed && present(segs[j].filePath)
            ==> j in ps)
  {
    WhereAscendingIndex(segs, MergeableOf(id, present), id);
  }

  /** The output name is the title when it ends in `.mp4`, else the title or `download_{id}` with `.mp4` added. */
  lemma OutputFileNameCases(title: string, id: TaskId)
    ensures title != "" && EndsWith(title, ".mp4") ==> OutputFileName(title, id) == title
    ensures title != "" && !EndsWith(title, ".mp4") ==> OutputFileName(title, id) == title + ".mp4"
    ensures title == "" && !EndsWith("download_" + id, ".mp4") ==> OutputFileName(title, id) == "download_" + id + ".mp4"
    ensures OutputFileName(OutputFileName(title, id), id) == OutputFileName(title, id)
  {
  }

  /**
   * The output path is the task's own when it has one; otherwise an
   * absolute title is its own path, and any other name goes under
   * `~/Downloads`.
   */
  lemma OutputPathCases(t: Task, id: TaskId, home: string)
    ensures t.outputPath != "" ==> OutputPathOf(t, id, home) == t.outputPath
    ensures t.outputPath == "" && StartsWith(t.title, "/") ==> OutputPathOf(t, id, home) == OutputFileName(t.title, id)
    ensures t.outputPath == "" && !StartsWith(t.title, "/") ==>
      OutputPathOf(t, id, home) == PathJoin(PathJoin(home, "Downloads"), OutputFileName(t.title, id))
  {
    var name := OutputFileName(t.title, id);
    var base := if t.title != "" then t.title else "download_" + id;
    assert name == base || name == base + ".mp4";
    assert |base| > 0 && name[0] == base[0];
    if t.title == "" {
      assert base[0] == 'd';
    }
  }

  /** A merge that succeeds completes the task, records the file and schedules the clean-up; one that fails fails it. */
  lemma MergeOutcome(s: Store, id: TaskId, present: string -> bool, merge: (seq<string>, string) -> bool,
                     size: string -> nat, home: string, now: int)
    requires id in s.tasks && s.tasks[id].status == Merging
    ensures var inputs := MergeInputs(s.segments, id, present);
      var out := OutputPathOf(s.tasks[id], id, home);
      var r := MergeSpec(s, id, present, merge, size, home, now);
      && (r.tasks[id].status == Completed <==> |inputs| > 0 && merge(inputs, out))
      && (r.tasks[id].status == Completed ==>
            && r.tasks[id].outputPath == out && |r.files| == |s.files| + 1
            && r.files[|s.files|].filePath == out && r.queue == s.queue + [CleanupTempFiles(id)])
      && (r.tasks[id].status != Completed ==> r.tasks[id].status == Failed && r.files == s.files && r.queue == s.queue)
      && r.segments == s.segments
  {
  }
}
