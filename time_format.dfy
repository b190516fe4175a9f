/**
 * The integer duration formatting shared by `DownloadTask.formatTime`
 * (backend-node/models/DownloadTask.js) and `formatTime` in the front
 * end's utilities: seconds below a minute, minutes and seconds below an
 * hour, hours and minutes from an hour on.
 */
module TimeFormat {
  import opened Text

  /** How a duration is read out. */
  datatype Reading =
    | Secs(total: int)
    | MinSecs(m: nat, s: nat)
    | HoursMins(h: nat, m: nat)

  /** The band a duration falls in, and its parts. */
  function TimeReading(seconds: int): (r: Reading)
    ensures r.Secs? <==> seconds < 60
    ensures r.Secs? ==> r.total == seconds
    ensures r.MinSecs? <==> 60 <= seconds < 3600
    ensures r.MinSecs? ==> r.m * 60 + r.s == seconds && r.s < 60 && 1 <= r.m < 60
    ensures r.HoursMins? <==> seconds >= 3600
    ensures r.HoursMins? ==>
      && r.h >= 1 && r.m < 60
      && r.h * 3600 + r.m * 60 <= seconds < r.h * 3600 + r.m * 60 + 60
  {
    if seconds < 60 then Secs(seconds)
    else if seconds < 3600 then MinSecs(seconds / 60, seconds % 60)
    else HoursMins(seconds / 3600, (seconds % 3600) / 60)
  }

  function Render(r: Reading): string {
    match r
    case Secs(s) => IntToString(s) + "秒"
    case MinSecs(m, s) => IntToString(m) + "分" + IntToString(s) + "秒"
    case HoursMins(h, m) => IntToString(h) + "时" + IntToString(m) + "分"
  }

  function FormatTime(seconds: int): string {
    Render(TimeReading(seconds))
  }

  /** The parts of a band are the only ones meeting its equations. */
  lemma ReadingUnique(seconds: int, r: Reading)
    requires match r
      case Secs(s) => seconds < 60 && s == seconds
      case MinSecs(m, s) => 60 <= seconds < 3600 && m * 60 + s == seconds && s < 60
      case HoursMins(h, m) => seconds >= 3600 && m < 60 && h * 3600 + m * 60 <= seconds < h * 3600 + m * 60 + 60
    ensures r == TimeReading(seconds)
  {
    var t := TimeReading(seconds);
    match r
    case Secs(_) =>
    case MinSecs(m, s) =>
      assert t.m * 60 + t.s == m * 60 + s;
    case HoursMins(h, m) =>
      assert h * 60 + m == t.h * 60 + t.m;
  }

  /** Below an hour the text ends in seconds, from an hour on in minutes. */
  lemma FormatTimeUnit(seconds: int)
    ensures seconds < 3600 ==> EndsWith(FormatTime(seconds), "秒")
    ensures seconds >= 3600 ==> EndsWith(FormatTime(seconds), "分")
  {
    var r := FormatTime(seconds);
    assert r[|r| - 1..] == [r[|r| - 1]];
  }
}
