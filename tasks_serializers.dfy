/**
 * The filter bodies of the Django tasks app (tasks/serializers.py): the
 * task-history filter and the system-log filter share one rule on their
 * dates. A date is an instant, in milliseconds; datetimes are always truthy.
 */
module TasksSerializers {
  import opened Wrappers

  const DatesReversed := "start_date cannot be later than end_date"

  /** The body of a `TaskHistoryFilterSerializer`. */
  datatype HistoryFilter = HistoryFilter(taskId: Option<string>, action: Option<string>, startDate: Option<int>, endDate: Option<int>)

  /** The body of a `SystemLogFilterSerializer`; `moduleName` is its `module` field. */
  datatype LogFilter = LogFilter(level: Option<string>, moduleName: Option<string>, startDate: Option<int>, endDate: Option<int>)

  /** `start_date and end_date and start_date > end_date`. */
  predicate Reversed(startDate: Option<int>, endDate: Option<int>) {
    startDate.Some? && endDate.Some? && startDate.value > endDate.value
  }

  /** `TaskHistoryFilterSerializer.validate`. */
  function ValidateHistoryFilter(d: HistoryFilter): (r: Result<HistoryFilter, string>)
    ensures r.Ok? ==> r.value == d
    ensures r.Err? ==> r.error == DatesReversed
  {
    if Reversed(d.startDate, d.endDate) then Err(DatesReversed) else Ok(d)
  }

  /** `SystemLogFilterSerializer.validate`. */
  function ValidateLogFilter(d: LogFilter): (r: Result<LogFilter, string>)
    ensures r.Ok? ==> r.value == d
    ensures r.Err? ==> r.error == DatesReversed
  {
    if Reversed(d.startDate, d.endDate) then Err(DatesReversed) else Ok(d)
  }

  /**
   * A history filter is refused exactly when both dates are given and the
   * start is after the end: equal dates pass, and so does a filter with
   * either date missing.
   */
  lemma HistoryFilterRule(d: HistoryFilter)
    ensures ValidateHistoryFilter(d).Err? <==> d.startDate.Some? && d.endDate.Some? && d.startDate.value > d.endDate.value
    ensures d.startDate.None? || d.endDate.None? ==> ValidateHistoryFilter(d) == Ok(d)
    ensures d.startDate.Some? && d.startDate == d.endDate ==> ValidateHistoryFilter(d) == Ok(d)
  {
  }

  /** The log filter applies the same rule to the same dates, whatever its other fields. */
  lemma FiltersAgree(h: HistoryFilter, l: LogFilter)
    requires h.startDate == l.startDate && h.endDate == l.endDate
    ensures ValidateHistoryFilter(h).Ok? <==> ValidateLogFilter(l).Ok?
    ensures ValidateHistoryFilter(h).Err? ==> ValidateHistoryFilter(h).error == ValidateLogFilter(l).error
  {
  }
}
