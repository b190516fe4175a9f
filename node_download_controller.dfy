/**
 * The download pipeline of the Express backend
 * (backend-node/controllers/downloadController.js) over one task object
 * and the local disk: the playlist range, the segment queue drained one
 * segment at a time, the download of one segment, the merge and the two
 * routes that hand a task back to `continueDownloadProcess`.
 *
 * The playlist parse, the key fetch and the segment fetches are inputs.
 * The concurrent workers are run as one: every worker takes the next
 * segment off the same queue, so a single worker visits the queue in the
 * same order.
 */
module NodeDownloadController {
  import opened Wrappers
  import opened Text
  import opened Bytes
  import opened Files
  import opened Seqs
  import opened NodeDownloadTask
  import P = NodeM3U8Parser
  import Aes = AesDecryptor
  import VM = VideoMerger

  // ---------------------------------------------------------------------
  // The range restriction of startDownloadProcess
  // ---------------------------------------------------------------------

  /** A JavaScript number is truthy unless it is absent or 0. */
  predicate Truthy(v: Option<int>) {
    v.Some? && v.value != 0
  }

  /** `Math.max(0, (startSegment || 1) - 1)`. */
  function RangeStart(startSegment: Option<int>): nat {
    var s := (if Truthy(startSegment) then startSegment.value else 1) - 1;
    if s < 0 then 0 else s
  }

  /** `Math.min(length, endSegment || length)`. */
  function RangeEnd(len: nat, endSegment: Option<int>): int {
    var e := if Truthy(endSegment) then endSegment.value else len;
    if e < len then e else len
  }

  /** The segments left after the range restriction. */
  function ApplyRange(segs: seq<P.Segment>, startSegment: Option<int>, endSegment: Option<int>): seq<P.Segment> {
    if Truthy(startSegment) || Truthy(endSegment) then
      JsSlice(segs, RangeStart(startSegment), RangeEnd(|segs|, endSegment))
    else segs
  }

  /** A 1-based inclusive range `a..b` inside the playlist keeps exactly those segments, with their indices. */
  lemma RangeIsOneBasedInclusive(segs: seq<P.Segment>, a: int, b: int)
    requires 1 <= a <= b <= |segs|
    ensures ApplyRange(segs, Some(a), Some(b)) == segs[a - 1..b]
    ensures forall k :: 0 <= k < b - a + 1 ==> ApplyRange(segs, Some(a), Some(b))[k] == segs[a - 1 + k]
  {
  }

  /** Without a range the playlist is kept; a start past the end or after the end bound leaves nothing. */
  lemma RangeEdges(segs: seq<P.Segment>, a: int, b: int)
    ensures ApplyRange(segs, None, None) == segs && ApplyRange(segs, Some(0), Some(0)) == segs
    ensures a > |segs| ==> ApplyRange(segs, Some(a), None) == []
    ensures 1 <= b < a ==> ApplyRange(segs, Some(a), Some(b)) == []
  {
  }

  /** A negative end counts from the back, as `slice` does: `endSegment = -1` drops the last segment. */
  lemma RangeNegativeEnd(segs: seq<P.Segment>)
    requires |segs| > 0
    ensures ApplyRange(segs, None, Some(-1)) == segs[..|segs| - 1]
  {
  }

  // ---------------------------------------------------------------------
  // downloadSegment
  // ---------------------------------------------------------------------

  /** `path.join(task.tempDir, `segment_${segment.index}.ts`)`. */
  function SegmentFile(tempDir: string, index: nat): string {
    PathJoin(tempDir, "segment_" + IntToString(index) + ".ts")
  }

  /** Different indices have different segment files. */
  lemma SegmentFileInjective(tempDir: string, i: nat, j: nat)
    ensures SegmentFile(tempDir, i) == SegmentFile(tempDir, j) <==> i == j
  {
    if SegmentFile(tempDir, i) == SegmentFile(tempDir, j) {
      var a := "segment_" + IntToString(i) + ".ts";
      var b := "segment_" + IntToString(j) + ".ts";
      PathJoinInjective(tempDir, a, b);
      assert NatToString(i) == a[8..|a| - 3];
      assert NatToString(j) == b[8..|b| - 3];
      DigitsValueOfNatToString(i);
      DigitsValueOfNatToString(j);
    }
  }

  /** What one segment download depends on besides the segment. */
  datatype Context = Context(
    tempDir: string,
    encryption: Option<P.KeyInfo>,
    key: Option<bytes>,
    fetch: string -> Option<bytes>,
    cipher: Aes.Cipher)

  function ContextOf(t: TaskState, fetch: string -> Option<bytes>, cipher: Aes.Cipher): Context {
    Context(t.tempDir, t.encryption, t.encryptionKey, fetch, cipher)
  }

  /** `task.encryption.iv || segment.index`: a non-empty hex IV, else the segment's own index. */
  function IvFor(enc: P.KeyInfo, index: nat): Aes.IvInput {
    if enc.iv.Some? && enc.iv.value != "" then Aes.IvHex(enc.iv.value) else Aes.IvNumber(index)
  }

  /**
   * The bytes `downloadSegment` writes for a segment not yet on disk: the
   * response, decrypted when both the descriptor and the key are set; None
   * when the fetch or the decryption throws.
   */
  function Fetched(ctx: Context, seg: P.Segment): Option<bytes> {
    match ctx.fetch(seg.url)
    case None => None
    case Some(data) =>
      if ctx.encryption.Some? && ctx.key.Some? then
        match Aes.DecryptSpec(ctx.cipher, data, Aes.KeyBuffer(ctx.key.value), IvFor(ctx.encryption.value, seg.index))
        case Err(_) => None
        case Ok(plain) => Some(plain)
      else Some(data)
  }

  /** The files and the two counters the drain changes. */
  datatype Tally = Tally(files: map<string, bytes>, downloaded: nat, failed: seq<P.Segment>)

  /** One segment taken off the queue: counted as downloaded, or pushed onto the failed list. */
  function Step(t: Tally, ctx: Context, seg: P.Segment): Tally {
    var path := SegmentFile(ctx.tempDir, seg.index);
    if path in t.files then t.(downloaded := t.downloaded + 1)
    else match Fetched(ctx, seg)
      case None => t.(failed := t.failed + [seg])
      case Some(data) => t.(files := t.files[path := data], downloaded := t.downloaded + 1)
  }

  /** The segments taken off the queue in order. */
  function Drain(t: Tally, ctx: Context, segs: seq<P.Segment>): Tally {
    if |segs| == 0 then t else Step(Drain(t, ctx, segs[..|segs| - 1]), ctx, segs[|segs| - 1])
  }

  /** A file already on disk is counted without a fetch, whatever the fetch would return. */
  lemma ExistingFileIsCounted(t: Tally, ctx: Context, seg: P.Segment)
    requires SegmentFile(ctx.tempDir, seg.index) in t.files
    ensures Step(t, ctx, seg) == t.(downloaded := t.downloaded + 1)
  {
  }

  /** The IV is the descriptor's when it has a non-empty one, else the segment index. */
  lemma IvChoice(enc: P.KeyInfo, index: nat)
    ensures enc.iv.Some? && enc.iv.value != "" ==> IvFor(enc, index) == Aes.IvHex(enc.iv.value)
    ensures enc.iv.None? || enc.iv.value == "" ==> IvFor(enc, index) == Aes.IvNumber(index)
  {
  }

  /** Without a key or without a descriptor the response is written as it came. */
  lemma PlainWithoutKey(ctx: Context, seg: P.Segment)
    requires ctx.encryption.None? || ctx.key.None?
    ensures Fetched(ctx, seg) == ctx.fetch(seg.url)
  {
  }

  /**
   * Each segment is counted exactly once, as downloaded or as failed; the
   * failed list only grows at its end, and files are only added.
   */
  lemma {:induction false} DrainCountsEach(t: Tally, ctx: Context, segs: seq<P.Segment>)
    ensures var r := Drain(t, ctx, segs);
      && r.downloaded + |r.failed| == t.downloaded + |t.failed| + |segs|
      && |t.failed| <= |r.failed| && r.failed[..|t.failed|] == t.failed
      && t.files.Keys <= r.files.Keys
  {
    if |segs| > 0 {
      DrainCountsEach(t, ctx, segs[..|segs| - 1]);
      var m := Drain(t, ctx, segs[..|segs| - 1]);
      assert (m.failed + [segs[|segs| - 1]])[..|t.failed|] == m.failed[..|t.failed|];
    }
  }

  /** After the drain every segment has its file on disk or is on the failed list. */
  lemma {:induction false} DrainLeavesFiles(t: Tally, ctx: Context, segs: seq<P.Segment>)
    ensures var r := Drain(t, ctx, segs);
      forall k :: 0 <= k < |segs| ==> SegmentFile(ctx.tempDir, segs[k].index) in r.files || segs[k] in r.failed
  {
    if |segs| > 0 {
      var front := segs[..|segs| - 1];
      DrainLeavesFiles(t, ctx, front);
      var m := Drain(t, ctx, front);
      var r := Step(m, ctx, segs[|segs| - 1]);
      assert m.files.Keys <= r.files.Keys;
      forall k | 0 <= k < |segs| ensures SegmentFile(ctx.tempDir, segs[k].index) in r.files || segs[k] in r.failed {
        if k < |front| {
          assert segs[k] == front[k];
          assert segs[k] in m.failed ==> segs[k] in r.failed;
        }
      }
    }
  }

  /** A drain in which nothing fails leaves the failed list as it was. */
  lemma {:induction false} DrainWithoutFailures(t: Tally, ctx: Context, segs: seq<P.Segment>)
    requires forall k :: 0 <= k < |segs| ==> Fetched(ctx, segs[k]).Some?
    ensures Drain(t, ctx, segs).failed == t.failed
    ensures Drain(t, ctx, segs).downloaded == t.downloaded + |segs|
  {
    if |segs| > 0 {
      DrainWithoutFailures(t, ctx, segs[..|segs| - 1]);
    }
  }

  // ---------------------------------------------------------------------
  // The task object and the disk together
  // ---------------------------------------------------------------------

  datatype World = World(task: TaskState, files: map<string, bytes>)

  function TallyOf(w: World): Tally {
    Tally(w.files, w.task.downloadedSegments, w.task.failedSegments)
  }

  /** `updateStatus`: the status and timestamp, then progress from the counters. */
  function WithStatus(t: TaskState, s: string, now: int): TaskState {
    t.(status := s, updatedAt := now, progress := ProgressOf(t.downloadedSegments, t.totalSegments))
  }

  /** The worker loop over `queue`: nothing happens for a cancelled task, else every queued segment is processed. */
  function DrainQueue(w: World, queue: seq<P.Segment>, fetch: string -> Option<bytes>, cipher: Aes.Cipher): World {
    if w.task.status == Cancelled then w
    else
      var r := Drain(TallyOf(w), ContextOf(w.task, fetch, cipher), queue);
      World(w.task.(downloadedSegments := r.downloaded, failedSegments := r.failed), r.files)
  }

  /** The workers of `downloadSegmentsConcurrently`, which queue a copy of the task's segments. */
  function DrainWorld(w: World, fetch: string -> Option<bytes>, cipher: Aes.Cipher): World {
    DrainQueue(w, w.task.segments, fetch, cipher)
  }

  /** `mergeSegments` as written: it reads `segment_0.ts` .. `segment_{n-1}.ts`. */
  function MergeInputsAsWritten(tempDir: string, n: nat): (r: seq<string>)
    ensures |r| == n && forall i :: 0 <= i < n ==> r[i] == SegmentFile(tempDir, i)
  {
    if n == 0 then [] else MergeInputsAsWritten(tempDir, n - 1) + [SegmentFile(tempDir, n - 1)]
  }

  /** The files the downloads write, one per segment in queue order. */
  function MergeInputs(tempDir: string, segs: seq<P.Segment>): (r: seq<string>)
    ensures |r| == |segs| && forall i :: 0 <= i < |segs| ==> r[i] == SegmentFile(tempDir, segs[i].index)
  {
    if |segs| == 0 then [] else MergeInputs(tempDir, segs[..|segs| - 1]) + [SegmentFile(tempDir, segs[|segs| - 1].index)]
  }

  /** `${task.title}.${task.convertToMp4 ? 'mp4' : 'ts'}` under the output directory. */
  function OutputFile(t: TaskState, outDir: string): string {
    PathJoin(outDir, t.title + "." + (if t.convertToMp4 then "mp4" else "ts"))
  }

  /**
   * `mergeSegments`, reading the given list of segment files: merging,
   * the existing files concatenated into the output, `completed`, and the
   * temporary directory removed.
   */
  function MergeWorldFrom(w: World, inputs: seq<string>, outDir: string, now: int): World {
    var t1 := WithStatus(w.task, Merging, now);
    var out := OutputFile(w.task, outDir);
    var files1 := w.files[out := VM.ConcatExisting(w.files, inputs)];
    World(WithStatus(t1.(outputFile := out), Completed, now), Without(files1, w.task.tempDir))
  }

  /** `mergeSegments` as written. */
  function MergeWorld(w: World, outDir: string, now: int): World {
    MergeWorldFrom(w, MergeInputsAsWritten(w.task.tempDir, |w.task.segments|), outDir, now)
  }

  /** `mergeSegments` reading each segment's file by the segment's own index. */
  function MergeWorldByIndex(w: World, outDir: string, now: int): World {
    MergeWorldFrom(w, MergeInputs(w.task.tempDir, w.task.segments), outDir, now)
  }

  /** What follows the drain: stop if cancelled, `partial` after failures, else the merge as written. */
  function AfterDrain(w: World, outDir: string, now: int): World {
    if w.task.status == Cancelled then w
    else if |w.task.failedSegments| > 0 then World(WithStatus(w.task, Partial, now), w.files)
    else MergeWorld(w, outDir, now)
  }

  /** The same, with the merge by segment index. */
  function AfterDrainByIndex(w: World, outDir: string, now: int): World {
    if w.task.status == Cancelled then w
    else if |w.task.failedSegments| > 0 then World(WithStatus(w.task, Partial, now), w.files)
    else MergeWorldByIndex(w, outDir, now)
  }

  /** `downloadSegmentsConcurrently`. */
  function ConcurrentlySpec(w: World, fetch: string -> Option<bytes>, cipher: Aes.Cipher, outDir: string, now: int): World {
    AfterDrain(DrainWorld(w, fetch, cipher), outDir, now)
  }

  /** `continueDownloadProcess`: only a paused task is set downloading and drained again. */
  function ContinueSpec(w: World, fetch: string -> Option<bytes>, cipher: Aes.Cipher, outDir: string, now: int): World {
    if w.task.status == Paused then ConcurrentlySpec(World(WithStatus(w.task, Downloading, now), w.files), fetch, cipher, outDir, now)
    else w
  }

  // ---------------------------------------------------------------------
  // startDownloadProcess
  // ---------------------------------------------------------------------

  const MissingKeyUri := "缺少加密密钥URI"

  /**
   * The `message` of what the playlist parser throws; `httpError` is the
   * message of the HTTP client's own error.
   */
  function ParseMessage(e: P.Error, httpError: string): string {
    match e
    case MasterPlaylist => "这是一个主播放列表，请选择具体的流质量链接"
    case NoSegments => "未找到有效的视频片段"
    case InvalidUrl(url) => "无效的URL: " + url
    case UnresolvableUrl(url) => "无法解析URL: " + url
    case FetchFailed(_) => httpError
    case ParseFailed(cause) => "解析M3U8文件失败: " + ParseMessage(cause, httpError)
  }

  /** The `catch` of `startDownloadProcess`: `error`, then the message. */
  function Failure(w: World, message: string, now: int): World {
    World(WithStatus(w.task, Error, now).(error := Some(message)), w.files)
  }

  /** What `startDownloadProcess` hands to the workers, once the segments and the key are in place. */
  function Prepared(t: TaskState, playlist: P.Playlist, tempRoot: string): TaskState {
    var segs := ApplyRange(playlist.segments, t.startSegment, t.endSegment);
    t.(segments := segs, totalSegments := |segs|, encryption := playlist.encryption, tempDir := PathJoin(tempRoot, t.id))
  }

  /** `downloadEncryptionKey`: the key bytes, or the message it throws. */
  function KeySpec(enc: P.KeyInfo, keyFetch: string -> Option<bytes>, httpError: string): (r: Result<bytes, string>)
    ensures enc.uri.None? || enc.uri.value == "" ==> r == Err(MissingKeyUri)
    ensures r.Ok? <==> enc.uri.Some? && enc.uri.value != "" && keyFetch(enc.uri.value).Some?
    ensures r.Ok? ==> Some(r.value) == keyFetch(enc.uri.value)
  {
    if enc.uri.None? || enc.uri.value == "" then Err(MissingKeyUri)
    else match keyFetch(enc.uri.value)
      case None => Err(httpError)
      case Some(key) => Ok(key)
  }

  /**
   * `startDownloadProcess`: parsing; the playlist (or the parse error);
   * the range; the temporary directory; the key when the playlist is
   * encrypted; then `downloading` and the workers.
   */
  function StartSpec(w: World, playlist: Result<P.Playlist, P.Error>, keyFetch: string -> Option<bytes>,
                     fetch: string -> Option<bytes>, cipher: Aes.Cipher, httpError: string,
                     tempRoot: string, outDir: string, now: int): World {
    match playlist
    case Err(e) => Failure(World(WithStatus(w.task, Parsing, now), w.files), ParseMessage(e, httpError), now)
    case Ok(p) =>
      var t2 := Prepared(WithStatus(w.task, Parsing, now), p, tempRoot);
      if p.encryption.None? then
        ConcurrentlySpec(World(WithStatus(t2, Downloading, now), w.files), fetch, cipher, outDir, now)
      else match KeySpec(p.encryption.value, keyFetch, httpError)
        case Err(message) => Failure(World(t2, w.files), message, now)
        case Ok(key) =>
          ConcurrentlySpec(World(WithStatus(t2.(encryptionKey := Some(key)), Downloading, now), w.files),
                           fetch, cipher, outDir, now)
  }

  // ---------------------------------------------------------------------
  // The methods
  // ---------------------------------------------------------------------

  /**
   * `downloadSegment`: true when the segment was counted, false when it
   * threw (the caller then pushes it onto the failed list).
   */
  method DownloadSegment(task: DownloadTask, disk: Disk, seg: P.Segment, fetch: string -> Option<bytes>,
                         cipher: Aes.Cipher) returns (ok: bool)
    modifies task, disk
    ensures var before := old(World(task.State(), disk.files));
      var r := Step(TallyOf(before), ContextOf(before.task, fetch, cipher), seg);
      if ok then
        && disk.files == r.files && task.State() == before.task.(downloadedSegments := r.downloaded)
        && r.failed == before.task.failedSegments
      else
        && disk.files == before.files && task.State() == before.task
        && r == TallyOf(before).(failed := before.task.failedSegments + [seg])
  {
    var segmentPath := SegmentFile(task.tempDir, seg.index);
    if disk.Exists(segmentPath) {
      task.downloadedSegments := task.downloadedSegments + 1;
      return true;
    }
    var response := fetch(seg.url);
    if response.None? {
      return false;
    }
    var data := response.value;
    if task.encryption.Some? && task.encryptionKey.Some? {
      var decrypted := Aes.Decrypt(cipher, data, Aes.KeyBuffer(task.encryptionKey.value),
                                   IvFor(task.encryption.value, seg.index));
      if decrypted.Err? {
        return false;
      }
      data := decrypted.value;
    }
    disk.Write(segmentPath, data);
    task.downloadedSegments := task.downloadedSegments + 1;
    return true;
  }

  /** `downloadWorker`: takes segments off the front of the queue until it is empty or the task is cancelled. */
  method DownloadWorker(task: DownloadTask, disk: Disk, fetch: string -> Option<bytes>, cipher: Aes.Cipher)
    modifies task, disk
    ensures World(task.State(), disk.files) == DrainWorld(old(World(task.State(), disk.files)), fetch, cipher)
  {
    ghost var before := World(task.State(), disk.files);
    ghost var ctx := ContextOf(before.task, fetch, cipher);
    var downloadQueue := task.segments;
    ghost var i := 0;
    while |downloadQueue| > 0 && task.status != Cancelled
      invariant 0 <= i <= |before.task.segments| && downloadQueue == before.task.segments[i..]
      invariant before.task.status == Cancelled ==> i == 0
      invariant task.State() == before.task.(downloadedSegments := task.downloadedSegments,
                                             failedSegments := task.failedSegments)
      invariant Tally(disk.files, task.downloadedSegments, task.failedSegments)
             == Drain(TallyOf(before), ctx, before.task.segments[..i])
      decreases |downloadQueue|
    {
      var segment := downloadQueue[0];
      downloadQueue := downloadQueue[1..];
      assert before.task.segments[..i + 1] == before.task.segments[..i] + [segment];
      assert before.task.segments[..i + 1][..i] == before.task.segments[..i];
      var ok := DownloadSegment(task, disk, segment, fetch, cipher);
      if !ok {
        task.failedSegments := task.failedSegments + [segment];
      }
      i := i + 1;
    }
    if before.task.status != Cancelled {
      assert before.task.segments[..i] == before.task.segments;
    }
  }

  /** The loop of `mergeSegments`: the contents of `segment_0.ts` .. `segment_{n-1}.ts` that exist, in order. */
  method ReadSegments(disk: Disk, tempDir: string, n: nat) returns (data: bytes)
    ensures data == VM.ConcatExisting(disk.files, MergeInputsAsWritten(tempDir, n))
  {
    ghost var inputs := MergeInputsAsWritten(tempDir, n);
    data := [];
    for i := 0 to n
      invariant data == VM.ConcatExisting(disk.files, inputs[..i])
    {
      assert inputs[..i + 1][..i] == inputs[..i];
      var segmentPath := SegmentFile(tempDir, i);
      if disk.Exists(segmentPath) {
        data := data + disk.files[segmentPath];
      }
    }
    assert inputs[..n] == inputs;
  }

  /** `mergeSegments`: merging, the segment files concatenated into the output, `completed`, the temporary directory removed. */
  method MergeSegments(task: DownloadTask, disk: Disk, outDir: string, now: int)
    modifies task, disk
    ensures World(task.State(), disk.files) == MergeWorld(old(World(task.State(), disk.files)), outDir, now)
  {
    task.UpdateStatus(Merging, now);
    var outputFile := OutputFile(task.State(), outDir);
    var data := ReadSegments(disk, task.tempDir, |task.segments|);
    disk.Write(outputFile, data);
    task.outputFile := outputFile;
    task.UpdateStatus(Completed, now);
    disk.RemoveTree(task.tempDir);
  }

  /** `downloadSegmentsConcurrently`: the drain, then the outcome. */
  method DownloadSegmentsConcurrently(task: DownloadTask, disk: Disk, fetch: string -> Option<bytes>,
                                      cipher: Aes.Cipher, outDir: string, now: int)
    modifies task, disk
    ensures World(task.State(), disk.files) == ConcurrentlySpec(old(World(task.State(), disk.files)), fetch, cipher, outDir, now)
  {
    DownloadWorker(task, disk, fetch, cipher);
    if task.status == Cancelled {
      return;
    }
    if |task.failedSegments| > 0 {
      task.UpdateStatus(Partial, now);
    } else {
      MergeSegments(task, disk, outDir, now);
    }
  }

  method ContinueDownloadProcess(task: DownloadTask, disk: Disk, fetch: string -> Option<bytes>,
                                 cipher: Aes.Cipher, outDir: string, now: int)
    modifies task, disk
    ensures World(task.State(), disk.files) == ContinueSpec(old(World(task.State(), disk.files)), fetch, cipher, outDir, now)
  {
    if task.status == Paused {
      task.UpdateStatus(Downloading, now);
      DownloadSegmentsConcurrently(task, disk, fetch, cipher, outDir, now);
    }
  }

  /** `downloadEncryptionKey`: None once the key is stored, else the message it throws. */
  method DownloadEncryptionKey(task: DownloadTask, keyFetch: string -> Option<bytes>, httpError: string)
    returns (failure: Option<string>)
    requires task.encryption.Some?
    modifies task
    ensures match KeySpec(old(task.encryption.value), keyFetch, httpError)
      case Err(message) => failure == Some(message) && task.State() == old(task.State())
      case Ok(key) => failure.None? && task.State() == old(task.State()).(encryptionKey := Some(key))
  {
    var uri := task.encryption.value.uri;
    if uri.None? || uri.value == "" {
      return Some(MissingKeyUri);
    }
    var response := keyFetch(uri.value);
    if response.None? {
      return Some(httpError);
    }
    task.encryptionKey := Some(response.value);
    return None;
  }

  /** The part of `startDownloadProcess` between the parse and the key. */
  method ApplyPlaylist(task: DownloadTask, m3u8Data: P.Playlist, tempRoot: string)
    modifies task
    ensures task.State() == Prepared(old(task.State()), m3u8Data, tempRoot)
  {
    var segments := ApplyRange(m3u8Data.segments, task.startSegment, task.endSegment);
    task.segments, task.totalSegments, task.encryption := segments, |segments|, m3u8Data.encryption;
    task.tempDir := PathJoin(tempRoot, task.id);
  }

  /**
   * `startDownloadProcess`, given what `parser.parse(task.url)` returned,
   * the key fetch and the segment fetches.
   */
  method StartDownloadProcess(task: DownloadTask, disk: Disk, playlist: Result<P.Playlist, P.Error>,
                              keyFetch: string -> Option<bytes>, fetch: string -> Option<bytes>,
                              cipher: Aes.Cipher, httpError: string, tempRoot: string, outDir: string, now: int)
    modifies task, disk
    ensures World(task.State(), disk.files)
         == StartSpec(old(World(task.State(), disk.files)), playlist, keyFetch, fetch, cipher, httpError, tempRoot, outDir, now)
  {
    task.UpdateStatus(Parsing, now);
    if playlist.Err? {
      task.UpdateStatus(Error, now);
      task.error := Some(ParseMessage(playlist.error, httpError));
      return;
    }
    ApplyPlaylist(task, playlist.value, tempRoot);
    if task.encryption.Some? {
      var failure := DownloadEncryptionKey(task, keyFetch, httpError);
      if failure.Some? {
        task.UpdateStatus(Error, now);
        task.error := failure;
        return;
      }
    }
    task.UpdateStatus(Downloading, now);
    DownloadSegmentsConcurrently(task, disk, fetch, cipher, outDir, now);
  }

  // ---------------------------------------------------------------------
  // The routes
  // ---------------------------------------------------------------------

  const EmptyUrl := "M3U8链接不能为空"
  const TaskCreated := "下载任务已创建"
  const NoSuchTask := "任务不存在"
  const TaskCancelled := "任务已取消"
  const RetryStarted := "重试已开始"

  /** The JSON bodies the routes answer with. */
  datatype Reply =
    | Created(taskId: string, message: string)
    | Snapshot(view: StatusView)
    | StatusIs(status: string)
    | Done(message: string)
    | Refused(code: nat, error: string)

  /** `title || `video_${Date.now()}``. */
  function TitleOrDefault(title: Option<string>, now: int): (r: string)
    ensures title.Some? && title.value != "" ==> r == title.value
    ensures title.None? || title.value == "" ==> r == "video_" + IntToString(now)
  {
    if title.Some? && title.value != "" then title.value else "video_" + IntToString(now)
  }

  /** The options `/start` builds the task from. */
  function StartOptions(taskId: string, url: string, title: Option<string>, convertToMp4: Option<bool>,
                        startSegment: Option<int>, endSegment: Option<int>, now: int): Options {
    Options(taskId, url, TitleOrDefault(title, now), Some(convertToMp4.GetOr(false)), startSegment, endSegment, Some(Pending))
  }

  /** The in-memory task table of the controller. */
  class Controller {
    var activeTasks: map<string, DownloadTask>

    constructor ()
      ensures activeTasks == map[]
    {
      activeTasks := map[];
    }

    /**
     * `POST /start`: a new task under the given id; the download process
     * runs after the reply (StartDownloadProcess).
     */
    method Start(url: Option<string>, title: Option<string>, convertToMp4: Option<bool>,
                 startSegment: Option<int>, endSegment: Option<int>, taskId: string, now: int) returns (r: Reply)
      modifies this
      ensures url.None? || url.value == "" ==> r == Refused(400, EmptyUrl) && activeTasks == old(activeTasks)
      ensures url.Some? && url.value != "" ==>
        && r == Created(taskId, TaskCreated)
        && taskId in activeTasks && fresh(activeTasks[taskId])
        && activeTasks == old(activeTasks)[taskId := activeTasks[taskId]]
        && activeTasks[taskId].State() == Initial(StartOptions(taskId, url.value, title, convertToMp4, startSegment, endSegment, now), now)
    {
      if url.None? || url.value == "" {
        return Refused(400, EmptyUrl);
      }
      var task := new DownloadTask(StartOptions(taskId, url.value, title, convertToMp4, startSegment, endSegment, now), now);
      activeTasks := activeTasks[taskId := task];
      return Created(taskId, TaskCreated);
    }

    /** `GET /status/:taskId`. */
    function Status(taskId: string): (r: Reply)
      reads this, activeTasks.Values
      ensures taskId !in activeTasks <==> r == Refused(404, NoSuchTask)
      ensures taskId in activeTasks ==> r == Snapshot(View(activeTasks[taskId].State()))
    {
      if taskId in activeTasks then Snapshot(activeTasks[taskId].GetStatus()) else Refused(404, NoSuchTask)
    }

    /**
     * `POST /toggle/:taskId`: pause a downloading task, resume a paused
     * one and hand it to `continueDownloadProcess`.
     */
    method Toggle(taskId: string, disk: Disk, fetch: string -> Option<bytes>, cipher: Aes.Cipher,
                  outDir: string, now: int) returns (r: Reply)
      modifies if taskId in activeTasks then {activeTasks[taskId]} else {}, disk
      ensures taskId !in old(activeTasks) ==> r == Refused(404, NoSuchTask) && unchanged(disk)
      ensures taskId in old(activeTasks) ==>
        var task := old(activeTasks[taskId]);
        var w := old(World(task.State(), disk.files));
        && World(task.State(), disk.files) == ToggleSpec(w, fetch, cipher, outDir, now)
        && r == StatusIs(task.status)
      ensures activeTasks == old(activeTasks)
    {
      if taskId !in activeTasks {
        return Refused(404, NoSuchTask);
      }
      var task := activeTasks[taskId];
      if task.status == Downloading {
        task.Pause(now);
      } else if task.status == Paused {
        task.Resume(now);
        ContinueDownloadProcess(task, disk, fetch, cipher, outDir, now);
      }
      return StatusIs(task.status);
    }

    /**
     * `DELETE /cancel/:taskId`: cancelled, its temporary directory removed, and
     * dropped from the table; a task cancelled before its playlist was parsed
     * has no temporary directory yet, and the disk is left as it was.
     */
    method Cancel(taskId: string, disk: Disk, now: int) returns (r: Reply)
      modifies this, if taskId in activeTasks then {activeTasks[taskId]} else {}, disk
      ensures taskId !in old(activeTasks) ==> r == Refused(404, NoSuchTask) && unchanged(disk) && activeTasks == old(activeTasks)
      ensures taskId in old(activeTasks) ==>
        var task := old(activeTasks[taskId]);
        && task.State() == old(task.State()).(status := Cancelled, updatedAt := now)
        && disk.files == Without(old(disk.files), old(task.tempDir))
        && (old(task.tempDir) == "" ==> disk.files == old(disk.files))
        && activeTasks == old(activeTasks) - {taskId}
        && r == Done(TaskCancelled)
    {
      if taskId !in activeTasks {
        return Refused(404, NoSuchTask);
      }
      var task := activeTasks[taskId];
      task.Cancel(now);
      disk.RemoveTree(task.tempDir);
      activeTasks := activeTasks - {taskId};
      return Done(TaskCancelled);
    }

    /** `POST /retry/:taskId`: `retryFailedSegments`, then `continueDownloadProcess`. */
    method Retry(taskId: string, disk: Disk, fetch: string -> Option<bytes>, cipher: Aes.Cipher,
                 outDir: string, now: int) returns (r: Reply)
      modifies if taskId in activeTasks then {activeTasks[taskId]} else {}, disk
      ensures taskId !in old(activeTasks) ==> r == Refused(404, NoSuchTask) && unchanged(disk)
      ensures taskId in old(activeTasks) ==>
        var task := old(activeTasks[taskId]);
        && World(task.State(), disk.files) == RetrySpec(old(World(task.State(), disk.files)), fetch, cipher, outDir, now)
        && r == Done(RetryStarted)
      ensures activeTasks == old(activeTasks)
    {
      if taskId !in activeTasks {
        return Refused(404, NoSuchTask);
      }
      var task := activeTasks[taskId];
      task.RetryFailedSegments(now);
      ContinueDownloadProcess(task, disk, fetch, cipher, outDir, now);
      return Done(RetryStarted);
    }
  }

  /** The toggle route: pause, or resume and continue. */
  function ToggleSpec(w: World, fetch: string -> Option<bytes>, cipher: Aes.Cipher, outDir: string, now: int): World {
    if w.task.status == Downloading then World(PauseOf(w.task, now), w.files)
    else if w.task.status == Paused then ContinueSpec(World(ResumeOf(w.task, now), w.files), fetch, cipher, outDir, now)
    else w
  }

  /** The retry route as written. */
  function RetrySpec(w: World, fetch: string -> Option<bytes>, cipher: Aes.Cipher, outDir: string, now: int): World {
    ContinueSpec(World(RetryOf(w.task, now), w.files), fetch, cipher, outDir, now)
  }

  /** The retry route as intended: the failed segments queued again, then the outcome with the merge by index. */
  function RetryByQueueSpec(w: World, fetch: string -> Option<bytes>, cipher: Aes.Cipher, outDir: string, now: int): World {
    AfterDrainByIndex(DrainQueue(World(RetryOf(w.task, now), w.files), w.task.failedSegments, fetch, cipher), outDir, now)
  }

  // ---------------------------------------------------------------------
  // Properties of the process
  // ---------------------------------------------------------------------

  /** The counters agree with the segment list: every segment is counted once, as downloaded or failed. */
  predicate Counted(t: TaskState) {
    t.downloadedSegments + |t.failedSegments| == t.totalSegments
  }

  /** Segment indices are pairwise different. */
  predicate DistinctIndices(segs: seq<P.Segment>) {
    forall i, j :: 0 <= i < j < |segs| ==> segs[i].index != segs[j].index
  }

  /** The parser numbers segments 0, 1, 2, ...; any range of them keeps the indices ascending, hence distinct. */
  lemma RangeKeepsIndicesDistinct(segs: seq<P.Segment>, startSegment: Option<int>, endSegment: Option<int>)
    requires forall k :: 0 <= k < |segs| ==> segs[k].index == k
    ensures var r := ApplyRange(segs, startSegment, endSegment);
      forall i, j :: 0 <= i < j < |r| ==> r[i].index < r[j].index
  {
    var r := ApplyRange(segs, startSegment, endSegment);
    if Truthy(startSegment) || Truthy(endSegment) {
      var from := RangeStart(startSegment);
      var to := RangeEnd(|segs|, endSegment);
      var a := if from < |segs| then from else |segs|;
      var b := if to < 0 then (if |segs| + to < 0 then 0 else |segs| + to) else (if to < |segs| then to else |segs|);
      if a < b {
        assert r == segs[a..b];
        assert forall k :: 0 <= k < |r| ==> r[k].index == a + k;
      } else {
        assert r == [];
      }
    }
  }

  /**
   * The workers, started on a task with no segment counted yet, count each
   * segment once; the outcome is `partial` or `completed` with progress
   * within 0..100.
   */
  lemma WorkersCountEach(w: World, fetch: string -> Option<bytes>, cipher: Aes.Cipher, outDir: string, now: int)
    requires w.task.status != Cancelled && w.task.downloadedSegments == 0 && w.task.failedSegments == []
    requires w.task.totalSegments == |w.task.segments|
    ensures var r := ConcurrentlySpec(w, fetch, cipher, outDir, now);
      && r.task.status in {Partial, Completed} && Counted(r.task)
      && 0 <= r.task.progress <= 100
  {
    DrainCountsEach(TallyOf(w), ContextOf(w.task, fetch, cipher), w.task.segments);
    var d := DrainWorld(w, fetch, cipher);
    ProgressBounds(d.task.downloadedSegments, d.task.totalSegments);
  }

  /**
   * A fresh task (counters at zero) ends the start process in `error`,
   * `partial` or `completed`; past the parse and the key every segment is
   * counted once, and progress stays within 0..100 on every path.
   */
  lemma StartCountsEach(w: World, playlist: Result<P.Playlist, P.Error>, keyFetch: string -> Option<bytes>,
                        fetch: string -> Option<bytes>, cipher: Aes.Cipher, httpError: string,
                        tempRoot: string, outDir: string, now: int)
    requires w.task.downloadedSegments == 0 && w.task.failedSegments == []
    ensures var r := StartSpec(w, playlist, keyFetch, fetch, cipher, httpError, tempRoot, outDir, now);
      && r.task.status in {Error, Partial, Completed}
      && (r.task.status != Error ==> Counted(r.task))
      && r.task.downloadedSegments <= r.task.totalSegments
      && 0 <= r.task.progress <= 100
  {
    match playlist {
      case Err(e) =>
        ProgressBounds(0, w.task.totalSegments);
      case Ok(p) =>
        var t2 := Prepared(WithStatus(w.task, Parsing, now), p, tempRoot);
        ProgressBounds(0, t2.totalSegments);
        if p.encryption.None? {
          WorkersCountEach(World(WithStatus(t2, Downloading, now), w.files), fetch, cipher, outDir, now);
        } else {
          match KeySpec(p.encryption.value, keyFetch, httpError) {
            case Err(message) =>
            case Ok(key) =>
              WorkersCountEach(World(WithStatus(t2.(encryptionKey := Some(key)), Downloading, now), w.files),
                               fetch, cipher, outDir, now);
          }
        }
    }
  }

  /** A playlist that does not parse leaves the task in `error` with the parser's message, and the disk as it was. */
  lemma StartParseFailure(w: World, e: P.Error, keyFetch: string -> Option<bytes>, fetch: string -> Option<bytes>,
                          cipher: Aes.Cipher, httpError: string, tempRoot: string, outDir: string, now: int)
    ensures var r := StartSpec(w, Err(e), keyFetch, fetch, cipher, httpError, tempRoot, outDir, now);
      r.task.status == Error && r.task.error == Some(ParseMessage(e, httpError)) && r.files == w.files
      && r.task.segments == w.task.segments
  {
  }

  /** An encrypted playlist whose key descriptor has no URI stops with `缺少加密密钥URI` before any segment is fetched. */
  lemma StartMissingKeyUri(w: World, p: P.Playlist, keyFetch: string -> Option<bytes>, fetch: string -> Option<bytes>,
                           cipher: Aes.Cipher, httpError: string, tempRoot: string, outDir: string, now: int)
    requires p.encryption.Some? && (p.encryption.value.uri.None? || p.encryption.value.uri.value == "")
    ensures var r := StartSpec(w, Ok(p), keyFetch, fetch, cipher, httpError, tempRoot, outDir, now);
      && r.task.status == Error && r.task.error == Some(MissingKeyUri) && r.files == w.files
      && r.task.downloadedSegments == w.task.downloadedSegments
      && r.task.segments == ApplyRange(p.segments, w.task.startSegment, w.task.endSegment)
  {
  }

  /** After the workers a task is `partial` exactly when some segment failed, else it is merged and `completed`. */
  lemma OutcomeOfDrain(w: World, outDir: string, now: int)
    requires w.task.status != Cancelled
    ensures AfterDrain(w, outDir, now).task.status == (if |w.task.failedSegments| > 0 then Partial else Completed)
    ensures |w.task.failedSegments| > 0 ==> AfterDrain(w, outDir, now).files == w.files
    ensures |w.task.failedSegments| == 0 ==>
      AfterDrain(w, outDir, now).task.outputFile == OutputFile(w.task, outDir)
  {
  }

  /** A cancelled task is left exactly as it is by the workers and what follows them. */
  lemma CancelledStaysPut(w: World, fetch: string -> Option<bytes>, cipher: Aes.Cipher, outDir: string, now: int)
    requires w.task.status == Cancelled
    ensures ConcurrentlySpec(w, fetch, cipher, outDir, now) == w
  {
  }

  /** Pausing then resuming through the toggle route restores the task; the resume fetches nothing itself. */
  lemma ToggleRoundTrip(w: World, fetch: string -> Option<bytes>, cipher: Aes.Cipher, outDir: string,
                        now1: int, now2: int)
    requires w.task.status == Downloading
    ensures ToggleSpec(w, fetch, cipher, outDir, now1).task.status == Paused
    ensures ToggleSpec(ToggleSpec(w, fetch, cipher, outDir, now1), fetch, cipher, outDir, now2)
         == World(w.task.(updatedAt := now2), w.files)
  {
  }

  // ---------------------------------------------------------------------
  // The merge reads files by position, the downloads write them by index
  // ---------------------------------------------------------------------

  /** The bytes each queued segment's fetch returns, in queue order. */
  function Fetches(ctx: Context, segs: seq<P.Segment>): (r: seq<bytes>)
    requires forall k :: 0 <= k < |segs| ==> Fetched(ctx, segs[k]).Some?
    ensures |r| == |segs|
  {
    if |segs| == 0 then [] else Fetches(ctx, segs[..|segs| - 1]) + [Fetched(ctx, segs[|segs| - 1]).value]
  }

  /** The pieces one after another. */
  function Concat(pieces: seq<bytes>): bytes {
    if |pieces| == 0 then [] else Concat(pieces[..|pieces| - 1]) + pieces[|pieces| - 1]
  }

  /** The bytes of the queued segments, in queue order. */
  function Payload(ctx: Context, segs: seq<P.Segment>): bytes
    requires forall k :: 0 <= k < |segs| ==> Fetched(ctx, segs[k]).Some?
  {
    Concat(Fetches(ctx, segs))
  }

  /** A segment not on disk whose fetch succeeds is written under its own file. */
  lemma StepWrites(t: Tally, ctx: Context, seg: P.Segment)
    requires Fetched(ctx, seg).Some? && SegmentFile(ctx.tempDir, seg.index) !in t.files
    ensures Step(t, ctx, seg).files == t.files[SegmentFile(ctx.tempDir, seg.index) := Fetched(ctx, seg).value]
  {
  }

  /**
   * What a drain without failures has written, as the induction below
   * carries it: every file added since `t` is one of `paths`, and each of
   * `paths` holds its piece.
   */
  predicate WroteAll(t: map<string, bytes>, r: map<string, bytes>, paths: seq<string>, pieces: seq<bytes>)
    requires |paths| == |pieces|
  {
    && (forall p :: p in r && p !in t ==> p in paths)
    && (forall k :: 0 <= k < |paths| ==> paths[k] in r && r[paths[k]] == pieces[k])
  }

  /** Writing one more piece under a path not written before extends what was written. */
  lemma WroteAllStep(t: map<string, bytes>, m: map<string, bytes>, paths: seq<string>, pieces: seq<bytes>,
                     path: string, piece: bytes)
    requires |paths| == |pieces| && path !in paths
    requires WroteAll(t, m, paths, pieces)
    ensures WroteAll(t, m[path := piece], paths + [path], pieces + [piece])
  {
    var r := m[path := piece];
    var ps := paths + [path];
    var vs := pieces + [piece];
    forall k | 0 <= k < |ps| ensures ps[k] in r && r[ps[k]] == vs[k] {
      if k < |paths| {
        assert ps[k] == paths[k] && vs[k] == pieces[k];
      }
    }
  }

  /** A path neither there at the start nor among those written since is still not there. */
  lemma NotWrittenYet(t: map<string, bytes>, m: map<string, bytes>, paths: seq<string>, pieces: seq<bytes>, path: string)
    requires |paths| == |pieces| && WroteAll(t, m, paths, pieces)
    requires path !in t && path !in paths
    ensures path !in m
  {
  }

  /** With distinct indices, the last segment's file is none of the earlier ones'. */
  lemma LastPathIsNew(ctx: Context, segs: seq<P.Segment>)
    requires |segs| > 0 && DistinctIndices(segs)
    ensures SegmentFile(ctx.tempDir, segs[|segs| - 1].index) !in MergeInputs(ctx.tempDir, segs[..|segs| - 1])
  {
    var front := segs[..|segs| - 1];
    var last := segs[|segs| - 1];
    var before := MergeInputs(ctx.tempDir, front);
    forall k | 0 <= k < |front| ensures before[k] != SegmentFile(ctx.tempDir, last.index) {
      SegmentFileInjective(ctx.tempDir, front[k].index, last.index);
    }
  }

  /**
   * Into a directory holding none of their files, a drain without failures
   * writes each segment's bytes under its own index, and nothing else.
   */
  lemma {:induction false} DrainWritesEach(t: Tally, ctx: Context, segs: seq<P.Segment>)
    requires forall k :: 0 <= k < |segs| ==> Fetched(ctx, segs[k]).Some?
    requires DistinctIndices(segs)
    requires forall k :: 0 <= k < |segs| ==> SegmentFile(ctx.tempDir, segs[k].index) !in t.files
    ensures WroteAll(t.files, Drain(t, ctx, segs).files, MergeInputs(ctx.tempDir, segs), Fetches(ctx, segs))
  {
    if |segs| > 0 {
      var front := segs[..|segs| - 1];
      var last := segs[|segs| - 1];
      var path := SegmentFile(ctx.tempDir, last.index);
      var m := Drain(t, ctx, front);
      var before := MergeInputs(ctx.tempDir, front);
      assert forall k :: 0 <= k < |front| ==> front[k] == segs[k];
      DrainWritesEach(t, ctx, front);
      LastPathIsNew(ctx, segs);
      NotWrittenYet(t.files, m.files, before, Fetches(ctx, front), path);
      StepWrites(m, ctx, last);
      assert MergeInputs(ctx.tempDir, segs) == before + [path];
      WroteAllStep(t.files, m.files, before, Fetches(ctx, front), path, Fetched(ctx, last).value);
    }
  }

  /** Reading back each written path in order gives the pieces one after another. */
  lemma {:induction false} ConcatWritten(files: map<string, bytes>, paths: seq<string>, pieces: seq<bytes>)
    requires |paths| == |pieces|
    requires forall k :: 0 <= k < |paths| ==> paths[k] in files && files[paths[k]] == pieces[k]
    ensures VM.ConcatExisting(files, paths) == Concat(pieces)
  {
    if |paths| > 0 {
      ConcatWritten(files, paths[..|paths| - 1], pieces[..|pieces| - 1]);
    }
  }

  /**
   * With the merge reading each segment by its own index, a download
   * without failures into a fresh temporary directory produces exactly
   * the fetched bytes, whatever range was chosen, and leaves nothing
   * under the temporary directory.
   */
  lemma MergeByIndexKeepsData(w: World, fetch: string -> Option<bytes>, cipher: Aes.Cipher, outDir: string, now: int)
    requires w.task.status != Cancelled && w.task.failedSegments == []
    requires forall k :: 0 <= k < |w.task.segments| ==> Fetched(ContextOf(w.task, fetch, cipher), w.task.segments[k]).Some?
    requires DistinctIndices(w.task.segments)
    requires w.task.tempDir != "" && !EndsWith(w.task.tempDir, "/")
    requires forall p :: p in w.files ==> !StartsWith(p, w.task.tempDir + "/")
    requires !StartsWith(OutputFile(w.task, outDir), w.task.tempDir + "/")
    ensures var r := AfterDrainByIndex(DrainWorld(w, fetch, cipher), outDir, now);
      && r.task.status == Completed
      && r.task.outputFile in r.files
      && r.files[r.task.outputFile] == Payload(ContextOf(w.task, fetch, cipher), w.task.segments)
      && forall p :: p in r.files ==> !StartsWith(p, w.task.tempDir + "/")
  {
    var ctx := ContextOf(w.task, fetch, cipher);
    var segs := w.task.segments;
    forall k | 0 <= k < |segs| ensures SegmentFile(ctx.tempDir, segs[k].index) !in w.files {
      SegmentUnderTempDir(ctx.tempDir, segs[k].index);
    }
    DrainWritesEach(TallyOf(w), ctx, segs);
    DrainWithoutFailures(TallyOf(w), ctx, segs);
    var d := DrainWorld(w, fetch, cipher);
    ConcatWritten(d.files, MergeInputs(ctx.tempDir, segs), Fetches(ctx, segs));
  }

  /** A segment file lies under its temporary directory, when that is a plain directory name. */
  lemma SegmentUnderTempDir(tempDir: string, index: nat)
    ensures tempDir != "" && !EndsWith(tempDir, "/") ==> StartsWith(SegmentFile(tempDir, index), tempDir + "/")
  {
    var name := "segment_" + IntToString(index) + ".ts";
    if tempDir != "" && !EndsWith(tempDir, "/") {
      assert SegmentFile(tempDir, index) == (tempDir + "/") + name;
    }
  }

  /**
   * As written, a range that starts past the first segment loses data: a
   * playlist of two segments with `startSegment = 2` queues only segment 1,
   * which is written to `segment_1.ts`, while the merge reads
   * `segment_0.ts`; the task completes with an empty output file. Read by
   * index, the output holds the segment's bytes.
   */
  lemma RangedMergeDropsSegment(w: World, fetch: string -> Option<bytes>, cipher: Aes.Cipher, outDir: string, now: int,
                                s0: P.Segment, s1: P.Segment, data: bytes)
    requires s0.index == 0 && s1.index == 1 && w.task.segments == [s1]
    requires w.task.status == Downloading && w.task.failedSegments == [] && w.task.encryption.None?
    requires w.files == map[] && fetch(s1.url) == Some(data) && data != []
    requires !StartsWith(OutputFile(w.task, outDir), w.task.tempDir + "/")
    ensures ApplyRange([s0, s1], Some(2), None) == w.task.segments
    ensures var r := ConcurrentlySpec(w, fetch, cipher, outDir, now);
      r.task.status == Completed && r.task.outputFile in r.files && r.files[r.task.outputFile] == []
    ensures var r := AfterDrainByIndex(DrainWorld(w, fetch, cipher), outDir, now);
      r.task.status == Completed && r.task.outputFile in r.files && r.files[r.task.outputFile] == data
  {
    var d := w.task.tempDir;
    var ctx := ContextOf(w.task, fetch, cipher);
    assert [s0, s1][1..2] == [s1];
    PlainWithoutKey(ctx, s1);
    var drained := DrainWorld(w, fetch, cipher);
    assert [s1][..|[s1]| - 1] == [];
    assert Drain(TallyOf(w), ctx, [s1]) == Step(TallyOf(w), ctx, s1);
    StepWrites(TallyOf(w), ctx, s1);
    assert drained.files == map[SegmentFile(d, 1) := data];
    SegmentFileInjective(d, 0, 1);
    assert MergeInputsAsWritten(d, 1) == [SegmentFile(d, 0)];
    assert [SegmentFile(d, 0)][..0] == [];
    assert VM.ConcatExisting(drained.files, [SegmentFile(d, 0)]) == [];
    assert MergeInputs(d, [s1]) == [SegmentFile(d, 1)];
    assert [SegmentFile(d, 1)][..0] == [];
    assert VM.ConcatExisting(drained.files, [SegmentFile(d, 1)]) == data;
    MergeKeepsOutput(drained, [SegmentFile(d, 0)], outDir, now);
    MergeKeepsOutput(drained, [SegmentFile(d, 1)], outDir, now);
  }

  /** An output outside the temporary directory survives its removal, holding the concatenated inputs. */
  lemma MergeKeepsOutput(w: World, inputs: seq<string>, outDir: string, now: int)
    requires !StartsWith(OutputFile(w.task, outDir), w.task.tempDir + "/")
    ensures var r := MergeWorldFrom(w, inputs, outDir, now);
      && r.task.status == Completed && r.task.outputFile == OutputFile(w.task, outDir)
      && r.task.outputFile in r.files && r.files[r.task.outputFile] == VM.ConcatExisting(w.files, inputs)
  {
  }

  // ---------------------------------------------------------------------
  // The retry route
  // ---------------------------------------------------------------------

  /**
   * As written, the retry route does nothing after `retryFailedSegments`:
   * the task is already `downloading`, which `continueDownloadProcess`
   * ignores. For a `partial` task the failed segments are dropped from the
   * list without being fetched again, and the task stays `downloading`
   * with segments missing.
   */
  lemma RetryRouteIsIdle(w: World, fetch: string -> Option<bytes>, cipher: Aes.Cipher, outDir: string, now: int)
    ensures RetrySpec(w, fetch, cipher, outDir, now) == World(RetryOf(w.task, now), w.files)
    ensures w.task.status == Partial && Counted(w.task) && |w.task.failedSegments| > 0 ==>
      var r := RetrySpec(w, fetch, cipher, outDir, now);
      && r.task.status == Downloading && r.task.failedSegments == []
      && r.task.downloadedSegments < r.task.totalSegments && r.files == w.files
  {
  }

  /**
   * Queuing the failed segments again keeps every segment counted once:
   * the task ends `partial` or `completed`.
   */
  lemma RetryByQueueCounts(w: World, fetch: string -> Option<bytes>, cipher: Aes.Cipher, outDir: string, now: int)
    requires w.task.status == Partial && Counted(w.task)
    ensures var r := RetryByQueueSpec(w, fetch, cipher, outDir, now);
      r.task.status in {Partial, Completed} && Counted(r.task)
  {
    var w1 := World(RetryOf(w.task, now), w.files);
    DrainCountsEach(TallyOf(w1), ContextOf(w1.task, fetch, cipher), w.task.failedSegments);
  }

  /** When every failed segment now downloads, the intended retry completes the task at 100 %. */
  lemma RetryByQueueCompletes(w: World, fetch: string -> Option<bytes>, cipher: Aes.Cipher, outDir: string, now: int)
    requires w.task.status == Partial && Counted(w.task) && |w.task.failedSegments| > 0
    requires forall k :: 0 <= k < |w.task.failedSegments| ==>
      Fetched(ContextOf(w.task, fetch, cipher), w.task.failedSegments[k]).Some?
    ensures var r := RetryByQueueSpec(w, fetch, cipher, outDir, now);
      && r.task.status == Completed && r.task.downloadedSegments == r.task.totalSegments
      && r.task.progress == 100
  {
    var w1 := World(RetryOf(w.task, now), w.files);
    assert ContextOf(w1.task, fetch, cipher) == ContextOf(w.task, fetch, cipher);
    DrainWithoutFailures(TallyOf(w1), ContextOf(w1.task, fetch, cipher), w.task.failedSegments);
    ProgressBounds(w.task.totalSegments, w.task.totalSegments);
  }
}
