/**
 * The Django files app's views (files/views.py): serving a stored file,
 * the per-file delete, move and rename actions, the bulk action over a
 * selection of files, and the statistics over the file table.
 *
 * A `DownloadedFile` row is kept with the fields these views read and
 * write. The file table is a sequence in the table's default order; a
 * row's `id` is its primary key. The disk is the flat map of `Files.Disk`:
 * directories are not modelled, so `os.makedirs` succeeds for every
 * non-empty directory name.
 */
module FilesViews {
  import opened Wrappers
  import opened Text
  import opened Bytes
  import opened Seqs
  import opened Files
  import FS = FilesSerializers

  datatype StoredFile = StoredFile(id: nat, filename: string, filePath: string, fileSize: int, fileType: string)

  /** One entry of the bulk action's `failed` list. */
  datatype Failure = Failure(id: nat, error: string)

  /** What a view answers. `Message` is a 200 reply with a `message`; `Error` carries its status code. */
  datatype Response =
    | Message(text: string)
    | Error(code: int, error: string)
    | NotFound
    | Invalid(errors: seq<FS.FieldError>)
    | Attachment(filename: string, data: bytes)
    | Bulk(success: seq<nat>, failed: seq<Failure>)

  /** The file table and the disk together. */
  datatype State = State(files: seq<StoredFile>, disk: map<string, bytes>)

  const Deleted := "File deleted successfully"
  const Moved := "File moved successfully"
  const Renamed := "File renamed successfully"
  const NotOnDisk := "File not found on disk"
  const UnknownError := "Unknown error"

  /** The text of a `FileNotFoundError` for one path. */
  function NoSuchFile(path: string): string {
    "[Errno 2] No such file or directory: '" + path + "'"
  }

  /** The text of a `FileNotFoundError` raised by `os.rename`, which names both paths. */
  function NoSuchFileToRename(src: string, dst: string): string {
    "[Errno 2] No such file or directory: '" + src + "' -> '" + dst + "'"
  }

  predicate UniqueIds(files: seq<StoredFile>) {
    forall i, j :: 0 <= i < j < |files| ==> files[i].id != files[j].id
  }

  /** The row `get_object` finds for a primary key. */
  function FindById(files: seq<StoredFile>, id: nat): (r: Option<StoredFile>)
    ensures r.Some? ==> r.value in files && r.value.id == id
    ensures r.None? ==> forall k :: 0 <= k < |files| ==> files[k].id != id
  {
    if |files| == 0 then None
    else if files[0].id == id then Some(files[0])
    else FindById(files[1..], id)
  }

  /** `file_obj.save()`: the row with the object's key takes the object's fields. */
  function SaveRow(files: seq<StoredFile>, f: StoredFile): (r: seq<StoredFile>)
    ensures |r| == |files|
    ensures forall k :: 0 <= k < |files| ==> r[k] == (if files[k].id == f.id then f else files[k])
  {
    if |files| == 0 then []
    else SaveRow(files[..|files| - 1], f) + [if files[|files| - 1].id == f.id then f else files[|files| - 1]]
  }

  /** `file_obj.delete()`: the row with that key goes. */
  function OtherThan(id: nat): StoredFile -> bool {
    (g: StoredFile) => g.id != id
  }

  /** A file's contents taken from `src` and put at `dst`, overwriting what was there. */
  function MoveOnDisk(disk: map<string, bytes>, src: string, dst: string): (r: map<string, bytes>)
    requires src in disk
    ensures dst in r && r[dst] == disk[src]
    ensures src != dst ==> src !in r
    ensures forall p :: p != src && p != dst ==> (p in r <==> p in disk) && (p in r ==> r[p] == disk[p])
  {
    (disk - {src})[dst := disk[src]]
  }

  // ---------------------------------------------------------------------
  // download
  // ---------------------------------------------------------------------

  /** `download`: the stored bytes as an attachment under the row's file name. */
  function Download(disk: map<string, bytes>, f: StoredFile): Response {
    if f.filePath !in disk then Error(404, NotOnDisk)
    else Attachment(f.filename, disk[f.filePath])
  }

  /** A file is served exactly when its path is on disk, with those bytes and the row's name. */
  lemma DownloadServes(disk: map<string, bytes>, f: StoredFile)
    ensures Download(disk, f).Attachment? <==> f.filePath in disk
    ensures Download(disk, f).Attachment? ==>
      Download(disk, f).data == disk[f.filePath] && Download(disk, f).filename == f.filename
    ensures f.filePath !in disk ==> Download(disk, f) == Error(404, NotOnDisk)
  {
  }

  // ---------------------------------------------------------------------
  // _delete_file, _move_file, _rename_file
  // ---------------------------------------------------------------------

  /** `_delete_file`: the file goes from disk when it is there, and the row goes in any case. */
  function DeleteSpec(w: State, f: StoredFile): (State, Response) {
    var disk := if f.filePath in w.disk then w.disk - {f.filePath} else w.disk;
    (State(Filter(w.files, OtherThan(f.id)), disk), Message(Deleted))
  }

  /**
   * `_move_file` as written: `os.makedirs(os.path.dirname(target))` is
   * called even when the target has no directory part, and `makedirs('')`
   * raises, so such a move always fails.
   */
  function MoveAsWritten(w: State, f: StoredFile, target: string): (State, Response) {
    if Dirname(target) == "" then (w, Error(500, "Error moving file: " + NoSuchFile("")))
    else MoveSpec(w, f, target)
  }

  /**
   * `_move_file` with the directory created only when there is one to
   * create: `shutil.move` fails when the source is missing, else the row
   * takes the target as its path and the target's last component as its name.
   */
  function MoveSpec(w: State, f: StoredFile, target: string): (State, Response) {
    if f.filePath !in w.disk then (w, Error(500, "Error moving file: " + NoSuchFile(f.filePath)))
    else
      var moved := f.(filePath := target, filename := Basename(target));
      (State(SaveRow(w.files, moved), MoveOnDisk(w.disk, f.filePath, target)), Message(Moved))
  }

  /** `_rename_file`: the new path is the new name in the old path's directory. */
  function RenamedPath(oldPath: string, newName: string): string {
    PyPathJoin(Dirname(oldPath), newName)
  }

  /** `_rename_file`: `os.rename` fails when the file is missing; the row changes only after it succeeds. */
  function RenameSpec(w: State, f: StoredFile, newName: string): (State, Response) {
    var newPath := RenamedPath(f.filePath, newName);
    if f.filePath !in w.disk then (w, Error(500, "Error renaming file: " + NoSuchFileToRename(f.filePath, newPath)))
    else
      var renamed := f.(filePath := newPath, filename := newName);
      (State(SaveRow(w.files, renamed), MoveOnDisk(w.disk, f.filePath, newPath)), Message(Renamed))
  }

  /** A delete always answers 200: the row and the file on disk are gone, nothing else changes. */
  lemma DeleteRemoves(w: State, f: StoredFile)
    ensures DeleteSpec(w, f).1 == Message(Deleted)
    ensures forall g :: g in DeleteSpec(w, f).0.files <==> g in w.files && g.id != f.id
    ensures forall p :: p in DeleteSpec(w, f).0.disk <==> p in w.disk && p != f.filePath
    ensures forall p :: p in DeleteSpec(w, f).0.disk ==> DeleteSpec(w, f).0.disk[p] == w.disk[p]
  {
    forall g: StoredFile {
      FilterMembership(w.files, OtherThan(f.id), g);
    }
  }

  /**
   * A move succeeds exactly when the file is on disk. Then the file's
   * bytes are at the target, the rows with its key take the target path
   * and the target's last component (no `/` in it) as name, and the other
   * rows stay; otherwise nothing changes.
   */
  lemma MoveOutcome(w: State, f: StoredFile, target: string)
    ensures MoveSpec(w, f, target).1.Message? <==> f.filePath in w.disk
    ensures f.filePath !in w.disk ==> MoveSpec(w, f, target).0 == w
    ensures f.filePath in w.disk ==>
      var w' := MoveSpec(w, f, target).0;
      && |w'.files| == |w.files|
      && (forall k :: 0 <= k < |w.files| && w.files[k].id == f.id ==>
            w'.files[k].filePath == target && w'.files[k].filename == Basename(target))
      && (forall k :: 0 <= k < |w.files| && w.files[k].id != f.id ==> w'.files[k] == w.files[k])
      && target in w'.disk && w'.disk[target] == w.disk[f.filePath]
    ensures EndsWith(target, Basename(target)) && forall k :: 0 <= k < |Basename(target)| ==> Basename(target)[k] != '/'
  {
    BasenameHasNoSlash(target);
    if f.filePath in w.disk {
      var moved := f.(filePath := target, filename := Basename(target));
      RowAndBytesMoved(w, moved, f.filePath, MoveSpec(w, f, target).0);
    }
  }

  /** Saving `g` and moving the bytes from `src` to `g`'s path: the rows and the bytes where they go. */
  lemma RowAndBytesMoved(w: State, g: StoredFile, src: string, w': State)
    requires src in w.disk && w' == State(SaveRow(w.files, g), MoveOnDisk(w.disk, src, g.filePath))
    ensures |w'.files| == |w.files|
    ensures forall k :: 0 <= k < |w.files| && w.files[k].id == g.id ==> w'.files[k] == g
    ensures forall k :: 0 <= k < |w.files| && w.files[k].id != g.id ==> w'.files[k] == w.files[k]
    ensures g.filePath in w'.disk && w'.disk[g.filePath] == w.disk[src]
  {
  }

  /**
   * As written, a move to a bare file name fails with a 500 and changes
   * nothing, even when the file is on disk.
   */
  lemma BareTargetMoveFails(w: State, f: StoredFile, target: string)
    requires forall k :: 0 <= k < |target| ==> target[k] != '/'
    ensures MoveAsWritten(w, f, target) == (w, Error(500, "Error moving file: " + NoSuchFile("")))
  {
    assert LastIndexOfChar(target, '/') == -1;
    assert target[..0] == "";
  }

  /**
   * The move the views make succeeds exactly when the target has a
   * directory part and the file is on disk; a failed move changes nothing.
   */
  lemma MoveAsWrittenOutcome(w: State, f: StoredFile, target: string)
    ensures MoveAsWritten(w, f, target).1.Message? <==> Dirname(target) != "" && f.filePath in w.disk
    ensures !MoveAsWritten(w, f, target).1.Message? ==> MoveAsWritten(w, f, target).0 == w
    ensures MoveAsWritten(w, f, target).1.Message? ==> MoveAsWritten(w, f, target) == MoveSpec(w, f, target)
  {
  }

  /** Wherever the target has a directory part, the code as written and the corrected move agree. */
  lemma MoveAsWrittenElsewhere(w: State, f: StoredFile, target: string)
    requires Dirname(target) != ""
    ensures MoveAsWritten(w, f, target) == MoveSpec(w, f, target)
  {
  }

  /**
   * A rename succeeds exactly when the file is on disk; then the rows with
   * its key take the new path and name, the other rows stay, and the bytes
   * are at the new path. A failed rename changes nothing.
   */
  lemma RenameOutcome(w: State, f: StoredFile, newName: string)
    ensures RenameSpec(w, f, newName).1.Message? <==> f.filePath in w.disk
    ensures f.filePath !in w.disk ==> RenameSpec(w, f, newName).0 == w
    ensures f.filePath in w.disk ==>
      var w' := RenameSpec(w, f, newName).0;
      var newPath := RenamedPath(f.filePath, newName);
      && (forall k :: 0 <= k < |w.files| && w.files[k].id == f.id ==>
            w'.files[k].filePath == newPath && w'.files[k].filename == newName)
      && (forall k :: 0 <= k < |w.files| && w.files[k].id != f.id ==> w'.files[k] == w.files[k])
      && newPath in w'.disk && w'.disk[newPath] == w.disk[f.filePath]
  {
    if f.filePath in w.disk {
      var newPath := RenamedPath(f.filePath, newName);
      var renamed := f.(filePath := newPath, filename := newName);
      RowAndBytesMoved(w, renamed, f.filePath, RenameSpec(w, f, newName).0);
    }
  }

  /**
   * A rename keeps the file in its directory: for a name without `/` the
   * new path's directory is the old one's and its last component is the
   * new name, which is also what the row's file name becomes.
   */
  lemma RenameStaysInDirectory(oldPath: string, newName: string)
    requires forall k :: 0 <= k < |newName| ==> newName[k] != '/'
    ensures Dirname(RenamedPath(oldPath, newName)) == Dirname(oldPath)
    ensures Basename(RenamedPath(oldPath, newName)) == newName
  {
    DirnameBasenameOfJoin(Dirname(oldPath), newName);
  }

  // ---------------------------------------------------------------------
  // file_action
  // ---------------------------------------------------------------------

  /**
   * `file_action`: 404 for a key with no row, 400 with the field errors
   * for a body that does not validate, else the action on the row.
   */
  function FileActionSpec(w: State, id: nat, d: FS.FileActionData): (State, Response) {
    var found := FindById(w.files, id);
    if found.None? then (w, NotFound)
    else
      var v := FS.ValidateFileAction(d);
      if v.Err? then (w, Invalid(v.error))
      else
        FS.FileActionAccepted(d);
        if v.value.action == Some("delete") then DeleteSpec(w, found.value)
        else if v.value.action == Some("move") then MoveAsWritten(w, found.value, v.value.targetPath.value)
        else RenameSpec(w, found.value, v.value.newName.value)
  }

  /** Only a 200 changes anything: every refusal and every failed action leaves the state as it was. */
  lemma FileActionChangesOnlyOn200(w: State, id: nat, d: FS.FileActionData)
    ensures !FileActionSpec(w, id, d).1.Message? ==> FileActionSpec(w, id, d).0 == w
  {
  }

  /**
   * A key with no row is a 404 whatever the body says, an invalid body for
   * a stored row is a 400 with its field errors, and a delete of a stored
   * row whose texts hold no NUL character always succeeds.
   */
  lemma FileActionRefusals(w: State, id: nat, d: FS.FileActionData)
    ensures FileActionSpec(w, id, d).1 == NotFound <==> forall k :: 0 <= k < |w.files| ==> w.files[k].id != id
    ensures FindById(w.files, id).Some? && FS.ValidateFileAction(d).Err? ==>
      FileActionSpec(w, id, d).1 == Invalid(FS.ValidateFileAction(d).error)
    ensures FindById(w.files, id).Some? && d.action == Some("delete") && FS.NoNull(d.targetPath) && FS.NoNull(d.newName) ==>
      FileActionSpec(w, id, d).1 == Message(Deleted)
  {
    FS.FileActionAccepted(d);
    var found := FindById(w.files, id);
    if found.Some? {
      assert found.value in w.files;
    }
  }

  // ---------------------------------------------------------------------
  // bulk_action
  // ---------------------------------------------------------------------

  /** `id__in=file_ids`. */
  function InIds(ids: seq<int>): StoredFile -> bool {
    (g: StoredFile) => g.id in ids
  }

  /** One file of the bulk loop: a delete, or a move to the one target. */
  function Step(w: State, f: StoredFile, action: string, target: Option<string>): (State, Response)
    requires action in FS.BulkActions && (action == "move" ==> target.Some?)
  {
    if action == "delete" then DeleteSpec(w, f) else MoveAsWritten(w, f, target.value)
  }

  /** The selected files handled in order, each on the state the one before left, with each reply. */
  function BulkRun(w: State, sel: seq<StoredFile>, action: string, target: Option<string>): (r: (State, seq<Response>))
    requires action in FS.BulkActions && (action == "move" ==> target.Some?)
    ensures |r.1| == |sel|
  {
    if |sel| == 0 then (w, [])
    else
      var before := BulkRun(w, sel[..|sel| - 1], action, target);
      var step := Step(before.0, sel[|sel| - 1], action, target);
      (step.0, before.1 + [step.1])
  }

  /** What one more turn of the bulk loop adds to the run and to the two lists. */
  lemma BulkStep(w: State, sel: seq<StoredFile>, i: nat, action: string, target: Option<string>, rs: seq<Response>, r: Response)
    requires action in FS.BulkActions && (action == "move" ==> target.Some?)
    requires i < |sel| && |rs| == i
    ensures var before := BulkRun(w, sel[..i], action, target);
      BulkRun(w, sel[..i + 1], action, target) ==
        (Step(before.0, sel[i], action, target).0, before.1 + [Step(before.0, sel[i], action, target).1])
    ensures Successes(sel[..i + 1], rs + [r]) == Successes(sel[..i], rs) + (if r.Message? then [sel[i].id] else [])
    ensures Failures(sel[..i + 1], rs + [r]) == Failures(sel[..i], rs) + (if r.Message? then [] else [Failure(sel[i].id, ErrorOf(r))])
  {
    assert sel[..i + 1][..i] == sel[..i];
    assert (rs + [r])[..i] == rs;
  }

  /** `result.data.get('error', 'Unknown error')`. */
  function ErrorOf(r: Response): string {
    if r.Error? then r.error else UnknownError
  }

  /** `results['success']`: the keys of the files answered 200, in order. */
  function Successes(sel: seq<StoredFile>, rs: seq<Response>): seq<nat>
    requires |sel| == |rs|
  {
    if |sel| == 0 then []
    else Successes(sel[..|sel| - 1], rs[..|rs| - 1]) + (if rs[|rs| - 1].Message? then [sel[|sel| - 1].id] else [])
  }

  /** `results['failed']`: the key and error of each file answered otherwise, in order. */
  function Failures(sel: seq<StoredFile>, rs: seq<Response>): seq<Failure>
    requires |sel| == |rs|
  {
    if |sel| == 0 then []
    else
      var r := rs[|rs| - 1];
      Failures(sel[..|sel| - 1], rs[..|rs| - 1]) + (if r.Message? then [] else [Failure(sel[|sel| - 1].id, ErrorOf(r))])
  }

  /** `bulk_action`: validate, select the rows whose key is listed, then handle them one by one. */
  function BulkSpec(w: State, d: FS.BulkData): (State, Response) {
    var v := FS.ValidateBulk(d);
    if v.Err? then (w, Invalid(v.error))
    else
      FS.BulkAccepted(d);
      var sel := Filter(w.files, InIds(v.value.fileIds.value));
      var run := BulkRun(w, sel, v.value.action.value, v.value.targetPath);
      (run.0, Bulk(Successes(sel, run.1), Failures(sel, run.1)))
  }

  /** Some file with key `id` got a reply that is (`ok`) or is not a 200. */
  predicate AnsweredAt(sel: seq<StoredFile>, rs: seq<Response>, id: nat, ok: bool)
    requires |sel| == |rs|
  {
    exists k :: 0 <= k < |sel| && sel[k].id == id && rs[k].Message? == ok
  }

  /** `id` is the key of some entry of `failed`. */
  predicate FailedId(failed: seq<Failure>, id: nat) {
    exists m :: 0 <= m < |failed| && failed[m].id == id
  }

  lemma AnsweredAtStep(sel: seq<StoredFile>, rs: seq<Response>, id: nat, ok: bool)
    requires |sel| == |rs| && |sel| > 0
    ensures var n := |sel| - 1;
      AnsweredAt(sel, rs, id, ok) <==> AnsweredAt(sel[..n], rs[..n], id, ok) || (sel[n].id == id && rs[n].Message? == ok)
  {
    var n := |sel| - 1;
    if AnsweredAt(sel[..n], rs[..n], id, ok) {
      var k :| 0 <= k < n && sel[..n][k].id == id && rs[..n][k].Message? == ok;
      assert sel[k] == sel[..n][k];
    }
    if AnsweredAt(sel, rs, id, ok) {
      var k :| 0 <= k < |sel| && sel[k].id == id && rs[k].Message? == ok;
      if k < n {
        assert sel[..n][k] == sel[k] && rs[..n][k] == rs[k];
      }
    }
  }

  lemma FailedIdAppend(failed: seq<Failure>, more: seq<Failure>, id: nat)
    ensures FailedId(failed + more, id) <==> FailedId(failed, id) || FailedId(more, id)
  {
    var all := failed + more;
    if FailedId(all, id) {
      var m :| 0 <= m < |all| && all[m].id == id;
      if m >= |failed| {
        assert more[m - |failed|] == all[m];
      }
    }
    if FailedId(more, id) {
      var m :| 0 <= m < |more| && more[m].id == id;
      assert all[|failed| + m] == more[m];
    }
    if FailedId(failed, id) {
      var m :| 0 <= m < |failed| && failed[m].id == id;
      assert all[m] == failed[m];
    }
  }

  /** A key is in `success` exactly when some file with it was answered 200. */
  lemma {:induction false} SuccessesAre(sel: seq<StoredFile>, rs: seq<Response>, id: nat)
    requires |sel| == |rs|
    ensures id in Successes(sel, rs) <==> AnsweredAt(sel, rs, id, true)
    decreases |sel|
  {
    if |sel| > 0 {
      var n := |sel| - 1;
      SuccessesAre(sel[..n], rs[..n], id);
      AnsweredAtStep(sel, rs, id, true);
    }
  }

  /** A key is in `failed` exactly when some file with it was answered otherwise. */
  lemma {:induction false} FailuresAre(sel: seq<StoredFile>, rs: seq<Response>, id: nat)
    requires |sel| == |rs|
    ensures FailedId(Failures(sel, rs), id) <==> AnsweredAt(sel, rs, id, false)
    decreases |sel|
  {
    if |sel| > 0 {
      var n := |sel| - 1;
      FailuresAre(sel[..n], rs[..n], id);
      AnsweredAtStep(sel, rs, id, false);
      var r := rs[n];
      var more := if r.Message? then [] else [Failure(sel[n].id, ErrorOf(r))];
      FailedIdAppend(Failures(sel[..n], rs[..n]), more, id);
      if !r.Message? {
        assert more[0].id == sel[n].id;
      }
    }
  }

  /** The two lists together are exactly as long as the selection. */
  lemma {:induction false} PartitionLength(sel: seq<StoredFile>, rs: seq<Response>)
    requires |sel| == |rs|
    ensures |Successes(sel, rs)| + |Failures(sel, rs)| == |sel|
    decreases |sel|
  {
    if |sel| > 0 {
      PartitionLength(sel[..|sel| - 1], rs[..|rs| - 1]);
    }
  }

  /**
   * With distinct keys in the selection, each selected file's key is in
   * exactly one of the two lists: in `success` exactly when its reply was 200.
   */
  lemma PartitionExactlyOne(sel: seq<StoredFile>, rs: seq<Response>, k: nat)
    requires |sel| == |rs| && UniqueIds(sel) && k < |sel|
    ensures sel[k].id in Successes(sel, rs) <==> rs[k].Message?
    ensures FailedId(Failures(sel, rs), sel[k].id) <==> !rs[k].Message?
  {
    SuccessesAre(sel, rs, sel[k].id);
    FailuresAre(sel, rs, sel[k].id);
  }

  /** Selecting rows keeps the keys distinct. */
  lemma {:induction false} FilterKeepsUniqueIds(files: seq<StoredFile>, p: StoredFile -> bool)
    requires UniqueIds(files)
    ensures UniqueIds(Filter(files, p))
    decreases |files|
  {
    if |files| > 0 {
      var n := |files| - 1;
      var front := files[..n];
      assert UniqueIds(front) by {
        forall i, j | 0 <= i < j < |front| ensures front[i].id != front[j].id {
          assert front[i] == files[i] && front[j] == files[j];
        }
      }
      FilterKeepsUniqueIds(front, p);
      var sel := Filter(front, p);
      if p(files[n]) {
        forall i | 0 <= i < |sel| ensures sel[i].id != files[n].id {
          FilterMembership(front, p, sel[i]);
          var j :| 0 <= j < |front| && front[j] == sel[i];
          assert files[j] == front[j];
        }
      }
    }
  }

  /**
   * For a valid bulk request on a table with distinct keys: a key in
   * either list is a listed key with a row, and a listed key with a row
   * is in exactly one list.
   */
  lemma BulkReportsEachFile(w: State, d: FS.BulkData, id: nat)
    requires FS.ValidateBulk(d).Ok? && UniqueIds(w.files)
    ensures BulkSpec(w, d).1.Bulk?
    ensures id in BulkSpec(w, d).1.success || FailedId(BulkSpec(w, d).1.failed, id) ==>
      id in d.fileIds.value && exists g :: g in w.files && g.id == id
    ensures id in d.fileIds.value && (exists g :: g in w.files && g.id == id) ==>
      (id in BulkSpec(w, d).1.success <==> !FailedId(BulkSpec(w, d).1.failed, id))
  {
    FS.BulkAccepted(d);
    var v := FS.ValidateBulk(d).value;
    var p := InIds(v.fileIds.value);
    var sel := Filter(w.files, p);
    var rs := BulkRun(w, sel, v.action.value, v.targetPath).1;
    SelectedReports(w.files, p, sel, rs, id);
    if id in v.fileIds.value && exists g :: g in w.files && g.id == id {
      var g :| g in w.files && g.id == id;
      FilterMembership(w.files, p, g);
      var k :| 0 <= k < |sel| && sel[k] == g;
      FilterKeepsUniqueIds(w.files, p);
      PartitionExactlyOne(sel, rs, k);
    }
  }

  /** A key in either list belongs to a selected row. */
  lemma SelectedReports(files: seq<StoredFile>, p: StoredFile -> bool, sel: seq<StoredFile>, rs: seq<Response>, id: nat)
    requires sel == Filter(files, p) && |rs| == |sel|
    ensures id in Successes(sel, rs) || FailedId(Failures(sel, rs), id) ==> exists g :: g in files && p(g) && g.id == id
  {
    SuccessesAre(sel, rs, id);
    FailuresAre(sel, rs, id);
    if AnsweredAt(sel, rs, id, true) || AnsweredAt(sel, rs, id, false) {
      var k :| 0 <= k < |sel| && sel[k].id == id;
      FilterMembership(files, p, sel[k]);
    }
  }

  /** No key of the rows handled so far. */
  predicate NotHandled(sel: seq<StoredFile>, id: nat) {
    forall k :: 0 <= k < |sel| ==> sel[k].id != id
  }

  /** No path of the rows handled so far. */
  predicate PathNotHandled(sel: seq<StoredFile>, path: string) {
    forall k :: 0 <= k < |sel| ==> sel[k].filePath != path
  }

  /**
   * A bulk delete answers 200 for every file; afterwards exactly the rows
   * with other keys are left, and exactly the files at other paths.
   */
  lemma {:induction false} BulkDeleteRemovesAll(w: State, sel: seq<StoredFile>, target: Option<string>)
    ensures forall k :: 0 <= k < |sel| ==> BulkRun(w, sel, "delete", target).1[k] == Message(Deleted)
    ensures forall g :: g in BulkRun(w, sel, "delete", target).0.files <==> g in w.files && NotHandled(sel, g.id)
    ensures forall p :: p in BulkRun(w, sel, "delete", target).0.disk <==> p in w.disk && PathNotHandled(sel, p)
    decreases |sel|
  {
    if |sel| > 0 {
      var n := |sel| - 1;
      var front := sel[..n];
      BulkDeleteRemovesAll(w, front, target);
      var before := BulkRun(w, front, "delete", target);
      DeleteRemoves(before.0, sel[n]);
      forall id: nat ensures NotHandled(sel, id) <==> NotHandled(front, id) && sel[n].id != id {
        if NotHandled(front, id) && sel[n].id != id {
          forall k | 0 <= k < |sel| ensures sel[k].id != id {
            if k < n { assert sel[k] == front[k]; }
          }
        }
        if NotHandled(sel, id) {
          forall k | 0 <= k < |front| ensures front[k].id != id {
            assert front[k] == sel[k];
          }
        }
      }
      forall p: string ensures PathNotHandled(sel, p) <==> PathNotHandled(front, p) && sel[n].filePath != p {
        if PathNotHandled(front, p) && sel[n].filePath != p {
          forall k | 0 <= k < |sel| ensures sel[k].filePath != p {
            if k < n { assert sel[k] == front[k]; }
          }
        }
        if PathNotHandled(sel, p) {
          forall k | 0 <= k < |front| ensures front[k].filePath != p {
            assert front[k] == sel[k];
          }
        }
      }
      forall k | 0 <= k < |sel| ensures BulkRun(w, sel, "delete", target).1[k] == Message(Deleted) {
        if k < n {
          assert BulkRun(w, sel, "delete", target).1[k] == before.1[k];
        }
      }
    }
  }

  /**
   * A valid bulk delete reports every selected key as a success and none
   * as failed, and leaves exactly the rows whose key was not listed.
   */
  lemma BulkDeleteOutcome(w: State, d: FS.BulkData)
    requires FS.ValidateBulk(d).Ok? && d.action == Some("delete")
    ensures var r := BulkSpec(w, d).1;
      r.Bulk? && r.failed == [] && |r.success| == Count(w.files, InIds(d.fileIds.value))
    ensures forall g :: g in BulkSpec(w, d).0.files <==> g in w.files && g.id !in d.fileIds.value
  {
    FS.BulkAccepted(d);
    var v := FS.ValidateBulk(d).value;
    var p := InIds(v.fileIds.value);
    var sel := Filter(w.files, p);
    var run := BulkRun(w, sel, "delete", v.targetPath);
    BulkDeleteRemovesAll(w, sel, v.targetPath);
    FilterProperties(w.files, p);
    AllSucceeded(sel, run.1);
    forall g: StoredFile ensures g in run.0.files <==> g in w.files && g.id !in v.fileIds.value {
      if g in w.files && g.id in v.fileIds.value {
        FilterMembership(w.files, p, g);
        var k :| 0 <= k < |sel| && sel[k] == g;
        assert !NotHandled(sel, g.id);
      }
      if g in w.files && g.id !in v.fileIds.value {
        forall k | 0 <= k < |sel| ensures sel[k].id != g.id {
          assert p(sel[k]);
        }
      }
    }
  }

  /** When every reply is 200 the failures are empty and every key is a success. */
  lemma {:induction false} AllSucceeded(sel: seq<StoredFile>, rs: seq<Response>)
    requires |sel| == |rs| && forall k :: 0 <= k < |rs| ==> rs[k].Message?
    ensures Failures(sel, rs) == [] && |Successes(sel, rs)| == |sel|
    decreases |sel|
  {
    if |sel| > 0 {
      AllSucceeded(sel[..|sel| - 1], rs[..|rs| - 1]);
    }
  }

  // ---------------------------------------------------------------------
  // stats
  // ---------------------------------------------------------------------

  /** One `by_type` entry: a file type with its file count and byte total. */
  datatype TypeTotals = TypeTotals(fileType: string, count: int, size: int)

  /** The `stats` reply; `total_size_formatted` is not modelled. */
  datatype FileStats = FileStats(totalFiles: nat, totalSize: int, byType: seq<TypeTotals>)

  /** `sum(f.file_size for f in rows)`. */
  function TotalSize(rows: seq<StoredFile>): int {
    if |rows| == 0 then 0 else TotalSize(rows[..|rows| - 1]) + rows[|rows| - 1].fileSize
  }

  /** How many rows have type `t`. */
  function CountOfType(rows: seq<StoredFile>, t: string): nat {
    if |rows| == 0 then 0 else CountOfType(rows[..|rows| - 1], t) + (if rows[|rows| - 1].fileType == t then 1 else 0)
  }

  /** The bytes of the rows of type `t`. */
  function SizeOfType(rows: seq<StoredFile>, t: string): int {
    if |rows| == 0 then 0 else SizeOfType(rows[..|rows| - 1], t) + (if rows[|rows| - 1].fileType == t then rows[|rows| - 1].fileSize else 0)
  }

  /** `file_type in by_type`, as the position of its entry, or -1. */
  function FindType(bt: seq<TypeTotals>, t: string): (r: int)
    ensures -1 <= r < |bt|
    ensures r >= 0 ==> bt[r].fileType == t && forall k :: 0 <= k < r ==> bt[k].fileType != t
    ensures r < 0 ==> forall k :: 0 <= k < |bt| ==> bt[k].fileType != t
  {
    if |bt| == 0 then -1
    else if bt[0].fileType == t then 0
    else
      var r := FindType(bt[1..], t);
      if r < 0 then -1 else r + 1
  }

  /** One turn of the `by_type` loop: a zero entry for a new type, then one more file and its bytes. */
  function Tally(bt: seq<TypeTotals>, f: StoredFile): seq<TypeTotals> {
    var j := FindType(bt, f.fileType);
    var bt' := if j < 0 then bt + [TypeTotals(f.fileType, 0, 0)] else bt;
    var at := if j < 0 then |bt| else j;
    bt'[at := TypeTotals(f.fileType, bt'[at].count + 1, bt'[at].size + f.fileSize)]
  }

  /** `by_type` after the loop over `rows`, its entries in the order their types first appear. */
  function ByType(rows: seq<StoredFile>): seq<TypeTotals> {
    if |rows| == 0 then [] else Tally(ByType(rows[..|rows| - 1]), rows[|rows| - 1])
  }

  function SumCounts(bt: seq<TypeTotals>): int {
    if |bt| == 0 then 0 else SumCounts(bt[..|bt| - 1]) + bt[|bt| - 1].count
  }

  function SumSizes(bt: seq<TypeTotals>): int {
    if |bt| == 0 then 0 else SumSizes(bt[..|bt| - 1]) + bt[|bt| - 1].size
  }

  predicate DistinctTypes(bt: seq<TypeTotals>) {
    forall i, j :: 0 <= i < j < |bt| ==> bt[i].fileType != bt[j].fileType
  }

  lemma {:induction false} SumsUpdate(bt: seq<TypeTotals>, j: nat, e: TypeTotals)
    requires j < |bt|
    ensures SumCounts(bt[j := e]) == SumCounts(bt) - bt[j].count + e.count
    ensures SumSizes(bt[j := e]) == SumSizes(bt) - bt[j].size + e.size
    decreases |bt|
  {
    var n := |bt| - 1;
    if j < n {
      SumsUpdate(bt[..n], j, e);
      assert bt[j := e][..n] == bt[..n][j := e];
    } else {
      assert bt[j := e][..n] == bt[..n];
    }
  }

  lemma SumsAppend(bt: seq<TypeTotals>, e: TypeTotals)
    ensures SumCounts(bt + [e]) == SumCounts(bt) + e.count
    ensures SumSizes(bt + [e]) == SumSizes(bt) + e.size
  {
    assert (bt + [e])[..|bt|] == bt;
  }

  /** One turn adds one file and its bytes to the totals. */
  predicate HasEntry(bt: seq<TypeTotals>, t: string) {
    exists i :: 0 <= i < |bt| && bt[i].fileType == t
  }

  predicate HasRowOfType(rows: seq<StoredFile>, t: string) {
    exists k :: 0 <= k < |rows| && rows[k].fileType == t
  }

  lemma TallySums(bt: seq<TypeTotals>, f: StoredFile)
    ensures SumCounts(Tally(bt, f)) == SumCounts(bt) + 1
    ensures SumSizes(Tally(bt, f)) == SumSizes(bt) + f.fileSize
  {
    var j := FindType(bt, f.fileType);
    var bt' := if j < 0 then bt + [TypeTotals(f.fileType, 0, 0)] else bt;
    var at := if j < 0 then |bt| else j;
    if j < 0 {
      SumsAppend(bt, TypeTotals(f.fileType, 0, 0));
    }
    SumsUpdate(bt', at, TypeTotals(f.fileType, bt'[at].count + 1, bt'[at].size + f.fileSize));
  }

  /** One turn keeps the types distinct. */
  lemma TallyDistinct(bt: seq<TypeTotals>, f: StoredFile)
    requires DistinctTypes(bt)
    ensures DistinctTypes(Tally(bt, f))
  {
    var j := FindType(bt, f.fileType);
    var r := Tally(bt, f);
    forall i, l | 0 <= i < l < |r| ensures r[i].fileType != r[l].fileType {
      if l >= |bt| {
        assert r[i].fileType == bt[i].fileType;
      }
    }
  }

  /**
   * After one turn the entry for `t` is found where it was, or at the end
   * when `t` is the new type; it gains one file and its bytes exactly
   * when `t` is the file's type.
   */
  lemma TallyEntry(bt: seq<TypeTotals>, f: StoredFile, t: string)
    ensures var j := FindType(bt, t);
      var j' := FindType(Tally(bt, f), t);
      && (t != f.fileType ==> j' == j && (j >= 0 ==> Tally(bt, f)[j'] == bt[j]))
      && (t == f.fileType ==>
            && j' >= 0
            && Tally(bt, f)[j'].count == (if j >= 0 then bt[j].count else 0) + 1
            && Tally(bt, f)[j'].size == (if j >= 0 then bt[j].size else 0) + f.fileSize)
  {
    var j := FindType(bt, t);
    var r := Tally(bt, f);
    var j' := FindType(r, t);
    var jf := FindType(bt, f.fileType);
    assert forall k :: 0 <= k < |bt| ==> r[k].fileType == bt[k].fileType;
    if j >= 0 {
      assert r[j].fileType == t;
    } else if t == f.fileType {
      assert r[|bt|].fileType == t;
    }
  }

  /** Every row is counted once: the counts add up to the rows and the sizes to the total size. */
  lemma {:induction false} ByTypeTotals(rows: seq<StoredFile>)
    ensures SumCounts(ByType(rows)) == |rows|
    ensures SumSizes(ByType(rows)) == TotalSize(rows)
    decreases |rows|
  {
    if |rows| > 0 {
      ByTypeTotals(rows[..|rows| - 1]);
      TallySums(ByType(rows[..|rows| - 1]), rows[|rows| - 1]);
    }
  }

  /** No type has two entries. */
  lemma {:induction false} ByTypeDistinct(rows: seq<StoredFile>)
    ensures DistinctTypes(ByType(rows))
    decreases |rows|
  {
    if |rows| > 0 {
      ByTypeDistinct(rows[..|rows| - 1]);
      TallyDistinct(ByType(rows[..|rows| - 1]), rows[|rows| - 1]);
    }
  }

  /** The entry for a type holds that type's count and bytes; a type without an entry has no rows. */
  lemma {:induction false} ByTypeEntries(rows: seq<StoredFile>, t: string)
    ensures var j := FindType(ByType(rows), t);
      && (j >= 0 ==> ByType(rows)[j].count == CountOfType(rows, t) >= 1 && ByType(rows)[j].size == SizeOfType(rows, t))
      && (j < 0 ==> CountOfType(rows, t) == 0 && SizeOfType(rows, t) == 0)
    decreases |rows|
  {
    if |rows| > 0 {
      ByTypeEntries(rows[..|rows| - 1], t);
      TallyEntry(ByType(rows[..|rows| - 1]), rows[|rows| - 1], t);
    }
  }

  /** A type has rows exactly when some row is of that type. */
  lemma {:induction false} CountOfTypePresent(rows: seq<StoredFile>, t: string)
    ensures CountOfType(rows, t) > 0 <==> HasRowOfType(rows, t)
    decreases |rows|
  {
    if |rows| > 0 {
      var n := |rows| - 1;
      CountOfTypePresent(rows[..n], t);
      if exists k :: 0 <= k < n && rows[..n][k].fileType == t {
        var k :| 0 <= k < n && rows[..n][k].fileType == t;
        assert rows[k] == rows[..n][k];
      }
      if exists k :: 0 <= k < |rows| && rows[k].fileType == t {
        var k :| 0 <= k < |rows| && rows[k].fileType == t;
        if k < n {
          assert rows[..n][k] == rows[k];
        }
      }
    }
  }

  /**
   * What `by_type` means: one entry per type present and no other, each
   * holding its type's number of rows and bytes, the counts adding up to
   * `total_files` and the sizes to `total_size`.
   */
  lemma ByTypeMeaning(rows: seq<StoredFile>)
    ensures DistinctTypes(ByType(rows))
    ensures forall t :: HasEntry(ByType(rows), t) <==> HasRowOfType(rows, t)
    ensures forall i :: 0 <= i < |ByType(rows)| ==>
      ByType(rows)[i].count == CountOfType(rows, ByType(rows)[i].fileType) &&
      ByType(rows)[i].size == SizeOfType(rows, ByType(rows)[i].fileType)
    ensures SumCounts(ByType(rows)) == |rows| && SumSizes(ByType(rows)) == TotalSize(rows)
  {
    var bt := ByType(rows);
    ByTypeDistinct(rows);
    ByTypeTotals(rows);
    forall t ensures HasEntry(bt, t) <==> HasRowOfType(rows, t) {
      ByTypeEntries(rows, t);
      CountOfTypePresent(rows, t);
    }
    forall i | 0 <= i < |bt| ensures bt[i].count == CountOfType(rows, bt[i].fileType) && bt[i].size == SizeOfType(rows, bt[i].fileType) {
      ByTypeEntries(rows, bt[i].fileType);
    }
  }

  // ---------------------------------------------------------------------
  // The view set over the file table
  // ---------------------------------------------------------------------

  /** `DownloadedFileViewSet`: the file table it queries and saves to; the disk is passed in. */
  class FileTable {
    var files: seq<StoredFile>

    constructor (initial: seq<StoredFile>)
      ensures files == initial
    {
      files := initial;
    }

    /** `_delete_file`. */
    method DeleteFile(disk: Disk, f: StoredFile) returns (r: Response)
      modifies this, disk
      ensures (State(files, disk.files), r) == DeleteSpec(old(State(files, disk.files)), f)
    {
      if disk.Exists(f.filePath) {
        disk.Remove(f.filePath);
      }
      files := Filter(files, OtherThan(f.id));
      r := Message(Deleted);
    }

    /** `_move_file` as written: `os.makedirs` of an empty directory part raises before anything moves. */
    method MoveFile(disk: Disk, f: StoredFile, target: string) returns (r: Response)
      modifies this, disk
      ensures (State(files, disk.files), r) == MoveAsWritten(old(State(files, disk.files)), f, target)
    {
      if Dirname(target) == "" {
        return Error(500, "Error moving file: " + NoSuchFile(""));
      }
      if !disk.Exists(f.filePath) {
        return Error(500, "Error moving file: " + NoSuchFile(f.filePath));
      }
      var data := disk.files[f.filePath];
      disk.Remove(f.filePath);
      disk.Write(target, data);
      files := SaveRow(files, f.(filePath := target, filename := Basename(target)));
      r := Message(Moved);
    }

    /** `_rename_file`. */
    method RenameFile(disk: Disk, f: StoredFile, newName: string) returns (r: Response)
      modifies this, disk
      ensures (State(files, disk.files), r) == RenameSpec(old(State(files, disk.files)), f, newName)
    {
      var newPath := RenamedPath(f.filePath, newName);
      if !disk.Exists(f.filePath) {
        return Error(500, "Error renaming file: " + NoSuchFileToRename(f.filePath, newPath));
      }
      var data := disk.files[f.filePath];
      disk.Remove(f.filePath);
      disk.Write(newPath, data);
      files := SaveRow(files, f.(filePath := newPath, filename := newName));
      r := Message(Renamed);
    }

    /** `download` of the row with key `id`. */
    method DownloadFile(disk: Disk, id: nat) returns (r: Response)
      ensures FindById(files, id).None? ==> r == NotFound
      ensures FindById(files, id).Some? ==> r == Download(disk.files, FindById(files, id).value)
    {
      var found := FindById(files, id);
      if found.None? {
        return NotFound;
      }
      r := Download(disk.files, found.value);
    }

    /** `file_action`. */
    method FileAction(disk: Disk, id: nat, d: FS.FileActionData) returns (r: Response)
      modifies this, disk
      ensures (State(files, disk.files), r) == FileActionSpec(old(State(files, disk.files)), id, d)
    {
      var found := FindById(files, id);
      if found.None? {
        return NotFound;
      }
      var v := FS.ValidateFileAction(d);
      if v.Err? {
        return Invalid(v.error);
      }
      FS.FileActionAccepted(d);
      if v.value.action == Some("delete") {
        r := DeleteFile(disk, found.value);
      } else if v.value.action == Some("move") {
        r := MoveFile(disk, found.value, v.value.targetPath.value);
      } else {
        r := RenameFile(disk, found.value, v.value.newName.value);
      }
    }

    /** `bulk_action`: the selection is read once, then each file is handled and reported. */
    method BulkAction(disk: Disk, d: FS.BulkData) returns (r: Response)
      modifies this, disk
      ensures (State(files, disk.files), r) == BulkSpec(old(State(files, disk.files)), d)
    {
      var v := FS.ValidateBulk(d);
      if v.Err? {
        return Invalid(v.error);
      }
      FS.BulkAccepted(d);
      var action := v.value.action.value;
      var target := v.value.targetPath;
      var selected := Filter(files, InIds(v.value.fileIds.value));
      ghost var start := State(files, disk.files);
      ghost var responses: seq<Response> := [];
      var success: seq<nat> := [];
      var failed: seq<Failure> := [];
      for i := 0 to |selected|
        invariant BulkRun(start, selected[..i], action, target) == (State(files, disk.files), responses)
        invariant success == Successes(selected[..i], responses)
        invariant failed == Failures(selected[..i], responses)
      {
        var result;
        if action == "delete" {
          result := DeleteFile(disk, selected[i]);
        } else {
          result := MoveFile(disk, selected[i], target.value);
        }
        if result.Message? {
          success := success + [selected[i].id];
        } else {
          failed := failed + [Failure(selected[i].id, ErrorOf(result))];
        }
        BulkStep(start, selected, i, action, target, responses, result);
        responses := responses + [result];
      }
      assert selected[..|selected|] == selected;
      r := Bulk(success, failed);
    }

    /** `stats`: the row count, the total size, and the totals per type. */
    method Stats() returns (r: FileStats)
      ensures r.totalFiles == |files| && r.totalSize == TotalSize(files) && r.byType == ByType(files)
    {
      var totalSize := 0;
      for i := 0 to |files|
        invariant totalSize == TotalSize(files[..i])
      {
        assert files[..i + 1][..i] == files[..i];
        totalSize := totalSize + files[i].fileSize;
      }
      var byType: seq<TypeTotals> := [];
      for i := 0 to |files|
        invariant byType == ByType(files[..i])
      {
        var fileType := files[i].fileType;
        var j := FindType(byType, fileType);
        if j < 0 {
          byType := byType + [TypeTotals(fileType, 0, 0)];
          j := |byType| - 1;
        }
        byType := byType[j := TypeTotals(fileType, byType[j].count + 1, byType[j].size + files[i].fileSize)];
        assert files[..i + 1][..i] == files[..i];
      }
      assert files[..|files|] == files;
      r := FileStats(|files|, totalSize, byType);
    }
  }
}
