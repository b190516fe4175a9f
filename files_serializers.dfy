/**
 * Request validation of the Django files app (files/serializers.py): the
 * single-file action and the bulk action. A request body comes in as its
 * fields, absent ones as `None`; a rejected body is the list of field
 * errors, in field order, that the REST framework reports.
 */
module FilesSerializers {
  import opened Wrappers
  import opened Text

  datatype FieldError = FieldError(field: string, message: string)

  const Required := "This field is required."
  const TooFewIds := "Ensure this field has at least 1 elements."
  const NonField := "non_field_errors"
  const MoveNeedsTarget := "target_path is required for move action"
  const RenameNeedsName := "new_name is required for rename action"
  const NullCharacters := "Null characters are not allowed."

  const FileActions: set<string> := {"delete", "move", "rename"}
  const BulkActions: set<string> := {"delete", "move"}

  function NotAChoice(v: string): string {
    "\"" + v + "\" is not a valid choice."
  }

  /** A `CharField` trims surrounding white space before anything else looks at it. */
  function CleanText(v: Option<string>): (r: Option<string>)
    ensures r.Some? <==> v.Some?
  {
    if v.Some? then Some(PyStrip(v.value)) else None
  }

  /** A `CharField` value holds no NUL character, or is absent. */
  predicate NoNull(v: Option<string>) {
    v.None? || '\0' !in v.value
  }

  /** The errors of a `CharField` that is neither required nor blank-refusing: only the NUL-character check. */
  function TextErrors(field: string, v: Option<string>): (r: seq<FieldError>)
    ensures r == [] <==> NoNull(v)
    ensures r != [] ==> r == [FieldError(field, NullCharacters)]
  {
    if NoNull(v) then [] else [FieldError(field, NullCharacters)]
  }

  /** `data.get(field)` is truthy: present and not empty. */
  predicate Truthy(v: Option<string>) {
    v.Some? && v.value != ""
  }

  /** The errors of a `ChoiceField`: missing, or not one of the choices. */
  function ChoiceErrors(field: string, v: Option<string>, choices: set<string>): (r: seq<FieldError>)
    ensures r == [] <==> v.Some? && v.value in choices
    ensures |r| <= 1
  {
    if v.None? then [FieldError(field, Required)]
    else if v.value !in choices then [FieldError(field, NotAChoice(v.value))]
    else []
  }

  /** The body of a `file_action` request. */
  datatype FileActionData = FileActionData(action: Option<string>, targetPath: Option<string>, newName: Option<string>)

  /** `FileActionSerializer(data).is_valid()`: the field checks, then `validate`. */
  function ValidateFileAction(d: FileActionData): (r: Result<FileActionData, seq<FieldError>>)
    ensures r.Ok? ==> r.value == FileActionData(d.action, CleanText(d.targetPath), CleanText(d.newName))
  {
    var errors := ChoiceErrors("action", d.action, FileActions) + TextErrors("target_path", d.targetPath)
                  + TextErrors("new_name", d.newName);
    if errors != [] then Err(errors)
    else
      var data := FileActionData(d.action, CleanText(d.targetPath), CleanText(d.newName));
      if data.action == Some("move") && !Truthy(data.targetPath) then Err([FieldError(NonField, MoveNeedsTarget)])
      else if data.action == Some("rename") && !Truthy(data.newName) then Err([FieldError(NonField, RenameNeedsName)])
      else Ok(data)
  }

  /**
   * A body is accepted exactly when its action is one of the three, its
   * texts hold no NUL character, a move names a target that is not blank
   * and a rename a name that is not blank; a delete needs neither.
   */
  lemma FileActionAccepted(d: FileActionData)
    ensures ValidateFileAction(d).Ok? <==>
      && d.action.Some? && d.action.value in FileActions
      && NoNull(d.targetPath) && NoNull(d.newName)
      && (d.action.value == "move" ==> Truthy(CleanText(d.targetPath)))
      && (d.action.value == "rename" ==> Truthy(CleanText(d.newName)))
    ensures d.action == Some("delete") && NoNull(d.targetPath) && NoNull(d.newName) ==> ValidateFileAction(d).Ok?
  {
  }

  /**
   * The message of each rejection: the field errors together, in field
   * order, and the cross-field messages only once the fields are clean.
   */
  lemma FileActionRejections(d: FileActionData)
    ensures var texts := TextErrors("target_path", d.targetPath) + TextErrors("new_name", d.newName);
      && (d.action.None? ==> ValidateFileAction(d) == Err([FieldError("action", Required)] + texts))
      && (d.action.Some? && d.action.value !in FileActions ==>
            ValidateFileAction(d) == Err([FieldError("action", NotAChoice(d.action.value))] + texts))
      && (d.action.Some? && d.action.value in FileActions && texts != [] ==> ValidateFileAction(d) == Err(texts))
    ensures d.action == Some("move") && NoNull(d.targetPath) && NoNull(d.newName) && !Truthy(CleanText(d.targetPath)) ==>
      ValidateFileAction(d) == Err([FieldError(NonField, MoveNeedsTarget)])
    ensures d.action == Some("rename") && NoNull(d.targetPath) && NoNull(d.newName) && !Truthy(CleanText(d.newName)) ==>
      ValidateFileAction(d) == Err([FieldError(NonField, RenameNeedsName)])
  {
    assert ChoiceErrors("action", d.action, FileActions) + TextErrors("target_path", d.targetPath) + TextErrors("new_name", d.newName)
        == ChoiceErrors("action", d.action, FileActions) + (TextErrors("target_path", d.targetPath) + TextErrors("new_name", d.newName));
    var texts := TextErrors("target_path", d.targetPath) + TextErrors("new_name", d.newName);
    assert [] + texts == texts;
  }

  /** A target holding a NUL character is refused on its own field, whatever the action. */
  lemma NullTargetRefused(action: string, target: string)
    requires action in FileActions && '\0' in target
    ensures ValidateFileAction(FileActionData(Some(action), Some(target), None))
         == Err([FieldError("target_path", NullCharacters)])
  {
    assert [] + [FieldError("target_path", NullCharacters)] + [] == [FieldError("target_path", NullCharacters)];
  }

  /** A target of nothing but white space is blank once trimmed, so a move to it is refused. */
  lemma BlankTargetRefused(target: string)
    requires forall k :: 0 <= k < |target| ==> IsPySpace(target[k])
    ensures ValidateFileAction(FileActionData(Some("move"), Some(target), None)) == Err([FieldError(NonField, MoveNeedsTarget)])
  {
    BlankStripsToEmpty(target);
    assert '\0' !in target by {
      assert forall k :: 0 <= k < |target| ==> target[k] != '\0';
    }
  }

  lemma BlankStripsToEmpty(s: string)
    requires forall k :: 0 <= k < |s| ==> IsPySpace(s[k])
    ensures PyStrip(s) == ""
  {
    TrimStartIsSuffix(s, IsPySpace);
  }

  /** The body of a `bulk_action` request; the ids are integers by the time they arrive. */
  datatype BulkData = BulkData(fileIds: Option<seq<int>>, action: Option<string>, targetPath: Option<string>)

  function IdErrors(ids: Option<seq<int>>): (r: seq<FieldError>)
    ensures r == [] <==> ids.Some? && |ids.value| >= 1
  {
    if ids.None? then [FieldError("file_ids", Required)]
    else if |ids.value| < 1 then [FieldError("file_ids", TooFewIds)]
    else []
  }

  /** `BulkFileActionSerializer(data).is_valid()`: both fields' errors together, then `validate`. */
  function ValidateBulk(d: BulkData): (r: Result<BulkData, seq<FieldError>>)
    ensures r.Ok? ==> r.value == BulkData(d.fileIds, d.action, CleanText(d.targetPath))
  {
    var errors := IdErrors(d.fileIds) + ChoiceErrors("action", d.action, BulkActions) + TextErrors("target_path", d.targetPath);
    if errors != [] then Err(errors)
    else
      var data := BulkData(d.fileIds, d.action, CleanText(d.targetPath));
      if data.action == Some("move") && !Truthy(data.targetPath) then Err([FieldError(NonField, MoveNeedsTarget)])
      else Ok(data)
  }

  /**
   * A bulk body is accepted exactly when it names at least one id, its
   * action is delete or move (never rename), its target holds no NUL
   * character, and a move has a target.
   */
  lemma BulkAccepted(d: BulkData)
    ensures ValidateBulk(d).Ok? <==>
      && d.fileIds.Some? && |d.fileIds.value| >= 1
      && d.action.Some? && d.action.value in BulkActions
      && NoNull(d.targetPath)
      && (d.action.value == "move" ==> Truthy(CleanText(d.targetPath)))
    ensures d.action == Some("rename") ==> ValidateBulk(d).Err?
  {
  }

  /** Field errors come all at once: with no ids and a bad action both are reported, ids first. */
  lemma BulkReportsEveryField(action: string)
    requires action !in BulkActions
    ensures ValidateBulk(BulkData(Some([]), Some(action), None))
         == Err([FieldError("file_ids", TooFewIds), FieldError("action", NotAChoice(action))])
  {
    var ids: seq<int> := [];
    assert IdErrors(Some(ids)) == [FieldError("file_ids", TooFewIds)];
    assert ChoiceErrors("action", Some(action), BulkActions) == [FieldError("action", NotAChoice(action))];
    assert TextErrors("target_path", None) == [];
    assert [FieldError("file_ids", TooFewIds)] + [FieldError("action", NotAChoice(action))] + []
        == [FieldError("file_ids", TooFewIds), FieldError("action", NotAChoice(action))];
  }
}
