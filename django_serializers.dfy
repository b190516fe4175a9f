/**
 * The Django backend's request validation: the status-transition table of
 * `DownloadTaskUpdateSerializer` and the URL check of
 * `DownloadTaskCreateSerializer`. A `ValidationError` is an `Err` carrying
 * its message.
 */
module DjangoSerializers {
  import opened Wrappers
  import opened Text
  import opened DjangoModels

  /** `allowed_transitions`: the statuses each status may be changed to. */
  const AllowedTransitions: map<string, seq<string>> := map[
    Pending := [Downloading, Cancelled],
    Downloading := [Paused, Cancelled, Failed, Merging],
    Paused := [Downloading, Cancelled],
    Merging := [Completed, Failed],
    Failed := [Downloading],
    Completed := [],
    Cancelled := [Downloading]
  ]

  /**
   * `validate_status`: `current` is the status of the instance being
   * updated, `None` when there is none. Only a status found in the table
   * restricts the new value.
   */
  function ValidateStatus(current: Option<string>, value: string): (r: Result<string, string>)
    ensures r.Ok? ==> r.value == value
    ensures r.Err? <==> current.Some? && current.value in AllowedTransitions && value !in AllowedTransitions[current.value]
    ensures r.Err? ==> r.error == "Cannot transition from " + current.value + " to " + value
  {
    if current.Some? && current.value in AllowedTransitions && value !in AllowedTransitions[current.value] then
      Err("Cannot transition from " + current.value + " to " + value)
    else
      Ok(value)
  }

  /** The transitions of the status machine, written out pair by pair. */
  predicate Transition(from: string, to: string) {
    || (from == Pending && (to == Downloading || to == Cancelled))
    || (from == Downloading && (to == Paused || to == Cancelled || to == Failed || to == Merging))
    || (from == Paused && (to == Downloading || to == Cancelled))
    || (from == Merging && (to == Completed || to == Failed))
    || (from == Failed && to == Downloading)
    || (from == Cancelled && to == Downloading)
  }

  /** The table holds a row for every task status and exactly the transitions above. */
  lemma TableIsTransitions(from: string, to: string)
    ensures from in AllowedTransitions <==> from in TaskStatuses
    ensures ValidateStatus(Some(from), to).Ok? <==> from !in TaskStatuses || Transition(from, to)
  {
  }

  /** `completed` has no successor. */
  lemma CompletedIsFinal(to: string)
    ensures ValidateStatus(Some(Completed), to) == Err("Cannot transition from completed to " + to)
  {
    assert AllowedTransitions[Completed] == [];
    assert "Cannot transition from " + Completed + " to " + to == "Cannot transition from completed to " + to;
  }

  /** No status may be set to itself. */
  lemma NoSelfTransition(s: string)
    requires s in TaskStatuses
    ensures ValidateStatus(Some(s), s).Err?
  {
  }

  /** Without an instance, or for a status outside the table, any value passes unchanged. */
  lemma UncheckedPasses(current: Option<string>, value: string)
    requires current.None? || current.value !in TaskStatuses
    ensures ValidateStatus(current, value) == Ok(value)
  {
  }

  /** Every status but `completed` can still reach `downloading` or is `downloading`. */
  lemma EveryStatusButCompletedMoves(s: string)
    requires s in TaskStatuses && s != Completed
    ensures exists to :: ValidateStatus(Some(s), to).Ok?
  {
    if s == Merging {
      assert ValidateStatus(Some(s), Completed).Ok?;
    } else if s == Downloading {
      assert ValidateStatus(Some(s), Paused).Ok?;
    } else {
      assert ValidateStatus(Some(s), Downloading).Ok?;
    }
  }

  /** `value.strip()` is empty exactly when every character is white space. */
  lemma StripEmptyIffBlank(s: string)
    ensures PyStrip(s) == "" <==> forall k :: 0 <= k < |s| ==> IsPySpace(s[k])
  {
    var t := TrimStart(s, IsPySpace);
    TrimStartIsSuffix(s, IsPySpace);
    TrimEndIsPrefix(t, IsPySpace);
    if PyStrip(s) == "" {
      forall k | 0 <= k < |s| ensures IsPySpace(s[k]) {
        if k >= |s| - |t| {
          assert s[k] == t[k - (|s| - |t|)];
        }
      }
    }
  }

  /** `validate_url`. */
  function ValidateUrl(value: string): (r: Result<string, string>)
    ensures r.Ok? ==> r.value == value
    ensures r == Err("URL cannot be empty") <==> forall k :: 0 <= k < |value| ==> IsPySpace(value[k])
    ensures r.Ok? <==> StartsWith(value, "http://") || StartsWith(value, "https://")
    ensures r.Err? ==> r.error in {"URL cannot be empty", "URL must start with http:// or https://"}
  {
    StripEmptyIffBlank(value);
    if PyStrip(value) == "" then Err("URL cannot be empty")
    else if !(StartsWith(value, "http://") || StartsWith(value, "https://")) then
      Err("URL must start with http:// or https://")
    else Ok(value)
  }
}
