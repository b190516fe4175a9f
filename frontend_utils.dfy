/**
 * The front end's display helpers (frontend/src/utils/index.js): the file
 * extension of a name, the status label and tag colour tables, the URL
 * guards and the title guessed from a URL. `formatTime` is the same three
 * bands as the Node model's and is `TimeFormat.FormatTime`.
 *
 * The `URL` constructor is not modelled: a URL comes in as the parts it
 * would expose, or `None` where the constructor throws.
 */
module FrontendUtils {
  import opened Wrappers
  import opened Text
  import opened Seqs

  // ---------------------------------------------------------------------
  // getFileExtension
  // ---------------------------------------------------------------------

  const TwoTo32 := 0x1_0000_0000

  /** `n >>> 0`: the value modulo 2^32, as an unsigned 32-bit number. */
  function Uint32(n: int): (r: int)
    ensures 0 <= r < TwoTo32
    ensures 0 <= n < TwoTo32 ==> r == n
  {
    n % TwoTo32
  }

  /** `filename.slice((filename.lastIndexOf('.') - 1 >>> 0) + 2)`. */
  function GetFileExtension(filename: string): string {
    var start := Uint32(LastIndexOfChar(filename, '.') - 1) + 2;
    JsSlice(filename, start, |filename|)
  }

  /**
   * For any name shorter than 2^32 characters: no extension when there is
   * no dot or the only dot that counts is the leading one of a hidden
   * file; otherwise everything after the last dot, which holds no dot.
   */
  lemma FileExtensionAfterLastDot(filename: string)
    requires |filename| < TwoTo32
    ensures var i := LastIndexOfChar(filename, '.');
      && (i <= 0 ==> GetFileExtension(filename) == "")
      && (i > 0 ==> GetFileExtension(filename) == filename[i + 1..])
    ensures forall k :: 0 <= k < |GetFileExtension(filename)| ==> GetFileExtension(filename)[k] != '.'
  {
    var i := LastIndexOfChar(filename, '.');
    var start := Uint32(i - 1) + 2;
    if i == -1 {
      assert Uint32(-2) == TwoTo32 - 2;
    } else if i == 0 {
      assert Uint32(-1) == TwoTo32 - 1;
    } else {
      assert start == i + 1;
      JsSliceWindow(filename, start, |filename|);
      var e := filename[i + 1..];
      forall k | 0 <= k < |e| ensures e[k] != '.' {
        assert e[k] == filename[i + 1 + k];
      }
    }
  }

  // ---------------------------------------------------------------------
  // getStatusText and getStatusType
  // ---------------------------------------------------------------------

  const StatusLabels: map<string, string> := map[
    "pending" := "等待中",
    "parsing" := "解析中",
    "downloading" := "下载中",
    "paused" := "已暂停",
    "merging" := "合并中",
    "completed" := "已完成",
    "error" := "下载失败",
    "cancelled" := "已取消"
  ]

  const StatusTypes: map<string, string> := map[
    "pending" := "info",
    "parsing" := "info",
    "downloading" := "primary",
    "paused" := "warning",
    "merging" := "primary",
    "completed" := "success",
    "error" := "danger",
    "cancelled" := "info"
  ]

  /** `statusMap[status] || status`: every label is non-empty, so a known status always gets its label. */
  function GetStatusText(status: string): (r: string)
    ensures status in StatusLabels ==> r == StatusLabels[status]
    ensures status !in StatusLabels ==> r == status
  {
    if status in StatusLabels && StatusLabels[status] != "" then StatusLabels[status] else status
  }

  /** `typeMap[status] || 'info'`. */
  function GetStatusType(status: string): (r: string)
    ensures status in StatusTypes ==> r == StatusTypes[status]
    ensures status !in StatusTypes ==> r == "info"
    ensures r in {"info", "primary", "warning", "success", "danger"}
  {
    if status in StatusTypes && StatusTypes[status] != "" then StatusTypes[status] else "info"
  }

  const KnownStatuses: set<string> := {"pending", "parsing", "downloading", "paused", "merging", "completed", "error", "cancelled"}

  /** The two tables key the same eight statuses. */
  lemma StatusTablesAgree()
    ensures StatusLabels.Keys == KnownStatuses && StatusTypes.Keys == KnownStatuses
  {
  }

  /** A label is never mistaken for a status: no label is itself a known status. */
  lemma LabelsAreNotStatuses(status: string)
    ensures status in StatusLabels ==> GetStatusText(status) !in StatusLabels
    ensures status !in StatusLabels ==> GetStatusText(status) == status
  {
  }

  /**
   * The Node backend's `partial` status and the Django backend's `failed`
   * are not in the tables: they are shown as the raw status with the
   * neutral `info` tag.
   */
  lemma BackendStatusesWithoutLabel()
    ensures GetStatusText("partial") == "partial" && GetStatusType("partial") == "info"
    ensures GetStatusText("failed") == "failed" && GetStatusType("failed") == "info"
  {
  }

  // ---------------------------------------------------------------------
  // URLs
  // ---------------------------------------------------------------------

  /** What a parsed `URL` exposes here: `protocol` (with its colon), `hostname` and `pathname`. */
  datatype Url = Url(protocol: string, hostname: string, pathname: string)

  /** `isValidUrl`: the text parses and its protocol is `http:` or `https:`. */
  predicate IsValidUrl(parsed: Option<Url>) {
    parsed.Some? && (parsed.value.protocol == "http:" || parsed.value.protocol == "https:")
  }

  /** `isM3U8Url`: a valid URL whose lower-cased path, or the whole text, mentions `m3u8`. */
  predicate IsM3U8Url(url: string, parsed: Option<Url>) {
    if !IsValidUrl(parsed) then false
    else
      var pathname := ToLower(parsed.value.pathname);
      EndsWith(pathname, ".m3u8") || Contains(pathname, "m3u8") || Contains(url, "m3u8")
  }

  /**
   * An M3U8 URL is a valid http(s) URL, and for a valid URL the `.m3u8`
   * suffix test adds nothing to the two substring tests.
   */
  lemma M3U8UrlIsValid(url: string, parsed: Option<Url>)
    ensures IsM3U8Url(url, parsed) ==> IsValidUrl(parsed)
    ensures IsM3U8Url(url, parsed) <==>
      IsValidUrl(parsed) && (Contains(ToLower(parsed.value.pathname), "m3u8") || Contains(url, "m3u8"))
  {
    if IsValidUrl(parsed) {
      var pathname := ToLower(parsed.value.pathname);
      if EndsWith(pathname, ".m3u8") {
        assert pathname[|pathname| - 4..] == pathname[|pathname| - 5..][1..];
        ContainsWhenOccurs(pathname, "m3u8", |pathname| - 4);
      }
    }
  }

  /** `hostname.replace(/^www\./, '')`. */
  function DropWww(hostname: string): (r: string)
    ensures StartsWith(hostname, "www.") ==> r == hostname[4..]
    ensures !StartsWith(hostname, "www.") ==> r == hostname
  {
    if StartsWith(hostname, "www.") then hostname[4..] else hostname
  }

  /** `pathname.split('/').pop().split('.')[0]`. */
  function PathTitle(pathname: string): string {
    var pieces := Split(pathname, '/');
    Split(pieces[|pieces| - 1], '.')[0]
  }

  /**
   * `extractTitleFromUrl`: the path's last component up to its first dot
   * when that is non-empty and not `index`, else the host without a
   * leading `www.`; `video_<now>` when the text does not parse.
   */
  function ExtractTitleFromUrl(parsed: Option<Url>, now: int): string {
    if parsed.None? then "video_" + IntToString(now)
    else
      var filename := PathTitle(parsed.value.pathname);
      if filename != "" && filename != "index" then filename else DropWww(parsed.value.hostname)
  }

  /**
   * Where the path title lies in the path: after the last `/` (or from the
   * start) up to the first `.` after it (or the end). The five facts fix
   * both ends, so this is an independent description of the two splits.
   */
  function TitleSpan(pathname: string): (span: (nat, nat))
    ensures span.0 <= span.1 <= |pathname|
    ensures span.0 == 0 || pathname[span.0 - 1] == '/'
    ensures forall k :: span.0 <= k < |pathname| ==> pathname[k] != '/'
    ensures span.1 == |pathname| || pathname[span.1] == '.'
    ensures forall k :: span.0 <= k < span.1 ==> pathname[k] != '.'
  {
    var a := LastIndexOfChar(pathname, '/') + 1;
    var dot := IndexOfChar(pathname[a..], '.');
    var b := if dot < 0 then |pathname| else a + dot;
    StemBounds(pathname, a, b);
    (a, b)
  }

  /** The path title is exactly the stretch `TitleSpan` marks. */
  lemma TitleInSpan(pathname: string)
    ensures var span := TitleSpan(pathname);
      PathTitle(pathname) == pathname[span.0..span.1]
  {
    var a := LastIndexOfChar(pathname, '/') + 1;
    var dot := IndexOfChar(pathname[a..], '.');
    var b := if dot < 0 then |pathname| else a + dot;
    StemBounds(pathname, a, b);
    PathTitleStem(pathname);
  }

  /** Where the first dot after position `a` is, and what lies before it. */
  lemma StemBounds(pathname: string, a: nat, b: nat)
    requires a <= |pathname| && (a == 0 || pathname[a - 1] == '/')
    requires forall k :: a <= k < |pathname| ==> pathname[k] != '/'
    requires b == (if IndexOfChar(pathname[a..], '.') < 0 then |pathname| else a + IndexOfChar(pathname[a..], '.'))
    ensures a <= b <= |pathname|
    ensures b == |pathname| || pathname[b] == '.'
    ensures forall k :: a <= k < b ==> pathname[k] != '.'
    ensures pathname[a..b] == (if IndexOfChar(pathname[a..], '.') < 0 then pathname[a..] else pathname[a..][..IndexOfChar(pathname[a..], '.')])
  {
    var last := pathname[a..];
    var dot := IndexOfChar(last, '.');
    if dot >= 0 {
      assert pathname[b] == last[dot];
      assert pathname[a..b] == last[..dot];
      forall k | a <= k < b ensures pathname[k] != '.' {
        assert pathname[k] == last[k - a];
      }
    } else {
      forall k | a <= k < |pathname| ensures pathname[k] != '.' {
        assert pathname[k] == last[k - a];
      }
    }
  }

  lemma PathTitleOfTail(pathname: string)
    ensures var a := LastIndexOfChar(pathname, '/') + 1;
      PathTitle(pathname) == Split(pathname[a..], '.')[0]
  {
    SplitLast(pathname, '/');
  }

  lemma PathTitleStem(pathname: string)
    ensures var a := LastIndexOfChar(pathname, '/') + 1;
      var dot := IndexOfChar(pathname[a..], '.');
      PathTitle(pathname) == (if dot < 0 then pathname[a..] else pathname[a..][..dot])
  {
    PathTitleOfTail(pathname);
  }

  /**
   * A title taken from the path is a non-empty stretch of it other than
   * `index`, with no `/` or `.`; any other parsed URL gives the host.
   */
  lemma TitleChoice(parsed: Option<Url>, now: int)
    requires parsed.Some?
    ensures var t := ExtractTitleFromUrl(parsed, now);
      var p := parsed.value.pathname;
      || (t == DropWww(parsed.value.hostname) && (PathTitle(p) == "" || PathTitle(p) == "index"))
      || (t == PathTitle(p) && t != "" && t != "index" && forall k :: 0 <= k < |t| ==> t[k] != '/' && t[k] != '.')
  {
    var p := parsed.value.pathname;
    var span := TitleSpan(p);
    TitleInSpan(p);
    var t := PathTitle(p);
    forall k | 0 <= k < |t| ensures t[k] != '/' && t[k] != '.' {
      assert t[k] == p[span.0 + k];
    }
  }
}
