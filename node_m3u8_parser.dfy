/**
 * The Express backend's playlist parser (`M3U8Parser` in
 * backend-node/utils/m3u8Parser.js): base URL and reference resolution,
 * the media-playlist scan that numbers segments and attaches the current
 * `EXT-X-KEY` descriptor, the variant scan of `parsePlaylist`, and the
 * `validateM3U8` check.  `new URL(...)` and the HTTP fetch are parameters.
 */
module NodeM3U8Parser {
  import opened Wrappers
  import opened Text
  import opened Seqs
  import opened Bytes

  const StreamTag := "#EXT-X-STREAM-INF"
  const KeyTag := "#EXT-X-KEY:"
  const VariantTag := "#EXT-X-STREAM-INF:"

  /** The thrown errors, by cause. */
  datatype Error =
    | MasterPlaylist
    | NoSegments
    | InvalidUrl(url: string)
    | UnresolvableUrl(url: string)
    | FetchFailed(url: string)
    | ParseFailed(cause: Error)

  /** The parts of a WHATWG `URL` object used here; `protocol` keeps its colon. */
  datatype NodeUrl = NodeUrl(protocol: string, host: string, pathname: string)

  /** `new URL(text)`: None when the constructor throws. */
  type UrlParser = string -> Option<NodeUrl>

  /** The descriptor `parseEncryption` builds; fields stay null unless matched. */
  datatype KeyInfo = KeyInfo(methodName: Option<string>, uri: Option<string>, iv: Option<string>)

  /** A segment record (the EXTINF duration is not modelled). */
  datatype Segment = Segment(index: nat, url: string, encryption: Option<KeyInfo>)

  datatype Playlist = Playlist(segments: seq<Segment>, encryption: Option<KeyInfo>, baseUrl: string)

  // ---------------------------------------------------------------------
  // getBaseUrl and resolveUrl

  /** `pathname.substring(0, pathname.lastIndexOf('/'))`; a -1 end counts as 0. */
  function DirPart(path: string): string {
    var k := LastIndexOfChar(path, '/');
    if k < 0 then "" else path[..k]
  }

  function GetBaseUrl(parse: UrlParser, url: string): Result<string, Error> {
    match parse(url)
    case None => Err(InvalidUrl(url))
    case Some(u) => Ok(u.protocol + "//" + u.host + DirPart(u.pathname))
  }

  predicate IsAbsolute(url: string) {
    StartsWith(url, "http://") || StartsWith(url, "https://")
  }

  function ResolveUrl(parse: UrlParser, url: string, base: string): Result<string, Error> {
    if IsAbsolute(url) then Ok(url)
    else if StartsWith(url, "/") then
      match parse(base)
      case None => Err(UnresolvableUrl(url))
      case Some(b) => Ok(b.protocol + "//" + b.host + url)
    else Ok(base + "/" + url)
  }

  /**
   * The base URL is the origin followed by the path up to, not including,
   * its last `/`, so it never ends with the slash; an unparsable URL
   * throws.
   */
  lemma GetBaseUrlDropsLastComponent(parse: UrlParser, url: string)
    ensures parse(url).None? ==> GetBaseUrl(parse, url) == Err(InvalidUrl(url))
    ensures parse(url).Some? ==>
      var u := parse(url).value;
      exists dir, rest ::
        && GetBaseUrl(parse, url) == Ok(u.protocol + "//" + u.host + dir)
        && dir + rest == u.pathname
        && ('/' in u.pathname ==> |rest| > 0 && rest[0] == '/' && '/' !in rest[1..])
        && ('/' !in u.pathname ==> rest == u.pathname)
  {
    if parse(url).Some? {
      var u := parse(url).value;
      var rest := DirPartThenRest(u.pathname);
      assert GetBaseUrl(parse, url) == Ok(u.protocol + "//" + u.host + DirPart(u.pathname));
    }
  }

  /** A path is its directory part followed by `/` and a last component without `/`, or has no `/` at all. */
  lemma DirPartThenRest(path: string) returns (rest: string)
    ensures DirPart(path) + rest == path
    ensures '/' in path ==> |rest| > 0 && rest[0] == '/' && '/' !in rest[1..]
    ensures '/' !in path ==> rest == path
  {
    var k := LastIndexOfChar(path, '/');
    rest := if k < 0 then path else path[k..];
    if k >= 0 {
      assert path == path[..k] + rest;
      assert forall i :: 0 <= i < |rest[1..]| ==> rest[1..][i] == path[k + 1 + i];
    }
  }

  /**
   * Resolving a playlist's own last path component against its base URL
   * rebuilds the playlist URL's origin and path.
   */
  lemma BaseThenResolveRebuilds(parse: UrlParser, url: string, dir: string, name: string)
    requires parse(url).Some? && parse(url).value.pathname == dir + "/" + name
    requires '/' !in name && !IsAbsolute(name)
    ensures GetBaseUrl(parse, url).Ok?
    ensures ResolveUrl(parse, name, GetBaseUrl(parse, url).value)
      == Ok(parse(url).value.protocol + "//" + parse(url).value.host + parse(url).value.pathname)
  {
    var path := dir + "/" + name;
    assert path[|dir|] == '/';
    forall j | |dir| < j < |path|
      ensures path[j] != '/'
    {
      assert path[j] == name[j - |dir| - 1];
    }
    LastIndexOfCharIs(path, '/', |dir|);
    assert path[..|dir|] == dir;
    if |name| > 0 {
      assert name[0] in name;
      assert name[..1] != "/";
    }
    assert !StartsWith(name, "/");
    var u := parse(url).value;
    assert u.protocol + "//" + u.host + dir + "/" + name == u.protocol + "//" + u.host + path;
  }

  /** Absolute references are kept as they are, whatever the base. */
  lemma AbsoluteIsKept(parse: UrlParser, url: string, base: string)
    requires IsAbsolute(url)
    ensures ResolveUrl(parse, url, base) == Ok(url)
  {
  }

  // ---------------------------------------------------------------------
  // Regular-expression captures of the form  LIT(CLASS+)  or  LIT(CLASS+)"

  /** Length of the greedy run of `cls` characters starting at `from`. */
  function Run(text: string, from: nat, cls: char -> bool): (n: nat)
    requires from <= |text|
    ensures from + n <= |text|
    ensures forall k :: from <= k < from + n ==> cls(text[k])
    ensures from + n == |text| || !cls(text[from + n])
    decreases |text| - from
  {
    if from < |text| && cls(text[from]) then 1 + Run(text, from + 1, cls) else 0
  }

  /**
   * The pattern matches at `i`: `lit`, then at least one `cls` character,
   * and, when `closed`, some character after the greedy run (the closing
   * quote, since `cls` excludes it).
   */
  predicate CaptureAt(text: string, lit: string, cls: char -> bool, closed: bool, i: nat) {
    && OccursAt(text, lit, i)
    && i + |lit| < |text|
    && cls(text[i + |lit|])
    && (closed ==> i + |lit| + Run(text, i + |lit|, cls) < |text|)
  }

  predicate IsFirstCapture(text: string, lit: string, cls: char -> bool, closed: bool, i: nat) {
    CaptureAt(text, lit, cls, closed, i) && forall j: nat :: j < i ==> !CaptureAt(text, lit, cls, closed, j)
  }

  function FirstCapture(text: string, lit: string, cls: char -> bool, closed: bool, from: nat): (r: Option<nat>)
    ensures r.Some? ==> from <= r.value && CaptureAt(text, lit, cls, closed, r.value)
    ensures forall j: nat :: from <= j && (r.None? || j < r.value) ==> !CaptureAt(text, lit, cls, closed, j)
    decreases |text| - from
  {
    if from >= |text| then None
    else if CaptureAt(text, lit, cls, closed, from) then Some(from)
    else FirstCapture(text, lit, cls, closed, from + 1)
  }

  /** `match[1]` of the leftmost match, or None when `match` gives null. */
  function Capture(text: string, lit: string, cls: char -> bool, closed: bool): Option<string> {
    match FirstCapture(text, lit, cls, closed, 0)
    case None => None
    case Some(i) => Some(text[i + |lit|..i + |lit| + Run(text, i + |lit|, cls)])
  }

  /** There is no capture iff the pattern matches nowhere. */
  lemma CaptureAbsent(text: string, lit: string, cls: char -> bool, closed: bool)
    ensures Capture(text, lit, cls, closed).None? <==> forall i: nat :: !CaptureAt(text, lit, cls, closed, i)
  {
    var m := FirstCapture(text, lit, cls, closed, 0);
    if m.Some? {
      assert CaptureAt(text, lit, cls, closed, m.value);
    }
  }

  /**
   * The leftmost match decides the capture: the non-empty greedy run of
   * `cls` characters after `lit`.
   */
  lemma CaptureAtFirst(text: string, lit: string, cls: char -> bool, closed: bool, i: nat)
    requires IsFirstCapture(text, lit, cls, closed, i)
    ensures Capture(text, lit, cls, closed) == Some(text[i + |lit|..i + |lit| + Run(text, i + |lit|, cls)])
    ensures Run(text, i + |lit|, cls) >= 1
    ensures forall c :: c in Capture(text, lit, cls, closed).value ==> cls(c)
  {
    assert CaptureAt(text, lit, cls, closed, i);
  }

  /** A closed capture is followed by a `"`. */
  lemma ClosedCaptureEndsAtQuote(text: string, lit: string, i: nat)
    requires CaptureAt(text, lit, IsNotQuote, true, i)
    ensures text[i + |lit| + Run(text, i + |lit|, IsNotQuote)] == '"'
  {
  }

  // ---------------------------------------------------------------------
  // parseEncryption

  /** `[^,\s]` with JavaScript's `\s`. */
  predicate IsMethodChar(c: char) {
    c != ',' && !IsJsSpace(c)
  }

  predicate IsNotQuote(c: char) {
    c != '"'
  }

  /**
   * `METHOD=([^,\s]+)`, `URI="([^"]+)"` (resolved) and `IV=0x([0-9A-Fa-f]+)`
   * (without the prefix); fields whose pattern does not match stay None.
   */
  function ParseEncryption(parse: UrlParser, keyLine: string, base: string): Result<KeyInfo, Error> {
    var meth := Capture(keyLine, "METHOD=", IsMethodChar, false);
    var uri := Capture(keyLine, "URI=\"", IsNotQuote, true);
    var iv := Capture(keyLine, "IV=0x", IsHexDigit, false);
    match uri
    case None => Ok(KeyInfo(meth, None, iv))
    case Some(u) =>
      match ResolveUrl(parse, u, base)
      case Err(e) => Err(e)
      case Ok(r) => Ok(KeyInfo(meth, Some(r), iv))
  }

  /**
   * The method is the non-empty run after `METHOD=` up to a comma or white
   * space, and is missing only when no such text occurs; a URI is taken
   * only from a double-quoted `URI="..."` and then holds no quote before
   * resolution, and an unresolvable URI makes the descriptor throw.
   */
  lemma MethodAndUriFields(parse: UrlParser, keyLine: string, base: string)
    ensures ParseEncryption(parse, keyLine, base).Ok? ==>
      && (ParseEncryption(parse, keyLine, base).value.methodName.None? <==>
            forall i: nat :: !CaptureAt(keyLine, "METHOD=", IsMethodChar, false, i))
      && (ParseEncryption(parse, keyLine, base).value.methodName.Some? ==>
            |ParseEncryption(parse, keyLine, base).value.methodName.value| >= 1 &&
            forall c :: c in ParseEncryption(parse, keyLine, base).value.methodName.value ==> IsMethodChar(c))
      && (ParseEncryption(parse, keyLine, base).value.uri.None? <==>
            forall i: nat :: !CaptureAt(keyLine, "URI=\"", IsNotQuote, true, i))
    ensures ParseEncryption(parse, keyLine, base).Err? <==>
      exists u :: Capture(keyLine, "URI=\"", IsNotQuote, true) == Some(u) && ResolveUrl(parse, u, base).Err?
  {
    var meth := Capture(keyLine, "METHOD=", IsMethodChar, false);
    var uri := Capture(keyLine, "URI=\"", IsNotQuote, true);
    CaptureFacts(keyLine, "METHOD=", IsMethodChar, false);
    CaptureFacts(keyLine, "URI=\"", IsNotQuote, true);
    var r := ParseEncryption(parse, keyLine, base);
    assert r.Ok? ==> r.value.methodName == meth && (r.value.uri.None? <==> uri.None?);
  }

  /** A capture is missing exactly when the pattern matches nowhere; otherwise it is a non-empty run of its class. */
  lemma CaptureFacts(text: string, lit: string, cls: char -> bool, closed: bool)
    ensures Capture(text, lit, cls, closed).None? <==> forall i: nat :: !CaptureAt(text, lit, cls, closed, i)
    ensures Capture(text, lit, cls, closed).Some? ==>
      |Capture(text, lit, cls, closed).value| >= 1 && forall c :: c in Capture(text, lit, cls, closed).value ==> cls(c)
  {
    CaptureAbsent(text, lit, cls, closed);
    var m := FirstCapture(text, lit, cls, closed, 0);
    if m.Some? {
      CaptureAtFirst(text, lit, cls, closed, m.value);
    }
  }

  /**
   * Only a lower-case `0x` prefix introduces an IV, and the stored IV is
   * hex digits only.
   */
  lemma IvNeedsLowerCasePrefix(parse: UrlParser, keyLine: string, base: string)
    requires ParseEncryption(parse, keyLine, base).Ok?
    ensures ParseEncryption(parse, keyLine, base).value.iv.None? <==>
      forall i: nat :: !CaptureAt(keyLine, "IV=0x", IsHexDigit, false, i)
    ensures ParseEncryption(parse, keyLine, base).value.iv.Some? ==>
      |ParseEncryption(parse, keyLine, base).value.iv.value| >= 1 &&
      forall c :: c in ParseEncryption(parse, keyLine, base).value.iv.value ==> IsHexDigit(c)
  {
    CaptureAbsent(keyLine, "IV=0x", IsHexDigit, false);
    var m := FirstCapture(keyLine, "IV=0x", IsHexDigit, false, 0);
    if m.Some? {
      CaptureAtFirst(keyLine, "IV=0x", IsHexDigit, false, m.value);
    }
  }

  // ---------------------------------------------------------------------
  // parseM3U8Content

  predicate NonEmpty(line: string) {
    |line| > 0
  }

  /** `content.split('\n').map(line => line.trim()).filter(line => line)` */
  function NodeLines(content: string): seq<string> {
    var pieces := Split(content, '\n');
    Filter(seq(|pieces|, k requires 0 <= k < |pieces| => JsTrim(pieces[k])), NonEmpty)
  }

  predicate IsKeyLine(line: string) {
    StartsWith(line, KeyTag)
  }

  predicate IsSegmentLine(line: string) {
    !StartsWith(line, "#") && |line| > 0
  }

  /** Key descriptors are never cancelled by a later line. */
  predicate NoReset(line: string) {
    false
  }

  /** What the scan carries from line to line. */
  datatype State = State(segments: seq<Segment>, encryption: Option<KeyInfo>)

  /**
   * One loop iteration: a master tag throws; a key line replaces the
   * current descriptor; a segment line is resolved and pushed with the
   * next index and the current descriptor.  (A key line starts with `#`,
   * so it is never also a segment line.)
   */
  function StepLine(parse: UrlParser, base: string, st: State, line: string): Result<State, Error> {
    if Contains(line, StreamTag) then Err(MasterPlaylist)
    else if IsKeyLine(line) then
      match ParseEncryption(parse, line, base)
      case Err(e) => Err(e)
      case Ok(k) => Ok(State(st.segments, Some(k)))
    else if IsSegmentLine(line) then
      match ResolveUrl(parse, line, base)
      case Err(e) => Err(e)
      case Ok(u) => Ok(State(st.segments + [Segment(|st.segments|, u, st.encryption)], st.encryption))
    else Ok(st)
  }

  /** The scan over a prefix of the lines; the first error ends it. */
  function Scan(parse: UrlParser, base: string, ls: seq<string>): Result<State, Error> {
    if |ls| == 0 then Ok(State([], None))
    else
      match Scan(parse, base, ls[..|ls| - 1])
      case Err(e) => Err(e)
      case Ok(st) => StepLine(parse, base, st, ls[|ls| - 1])
  }

  /** Once the scan of a prefix has failed, the scan of the whole fails the same way. */
  lemma {:induction false} ScanStaysFailed(parse: UrlParser, base: string, ls: seq<string>, k: nat)
    requires k <= |ls| && Scan(parse, base, ls[..k]).Err?
    ensures Scan(parse, base, ls) == Scan(parse, base, ls[..k])
    decreases |ls|
  {
    if k < |ls| {
      var front := ls[..|ls| - 1];
      assert front[..k] == ls[..k];
      ScanStaysFailed(parse, base, front, k);
    } else {
      assert ls[..k] == ls;
    }
  }

  /** Scanning one more line is one more step. */
  lemma ScanNext(parse: UrlParser, base: string, ls: seq<string>, i: nat, st: State)
    requires i < |ls| && Scan(parse, base, ls[..i]) == Ok(st)
    ensures Scan(parse, base, ls[..i + 1]) == StepLine(parse, base, st, ls[i])
  {
    assert ls[..i + 1][..i] == ls[..i];
  }

  /** `d` is the descriptor of the last key line, or None when there is none. */
  predicate KeyDescribes(parse: UrlParser, base: string, ls: seq<string>, d: Option<KeyInfo>) {
    match LastMarked(ls, IsKeyLine, NoReset)
    case None => d.None?
    case Some(l) => d.Some? && ParseEncryption(parse, l, base) == Ok(d.value)
  }

  /** A successful scan has seen no master tag. */
  lemma {:induction false} ScanNoMaster(parse: UrlParser, base: string, ls: seq<string>)
    requires Scan(parse, base, ls).Ok?
    ensures forall k :: 0 <= k < |ls| ==> !Contains(ls[k], StreamTag)
  {
    if |ls| > 0 {
      var front := ls[..|ls| - 1];
      ScanNoMaster(parse, base, front);
      assert forall k :: 0 <= k < |front| ==> front[k] == ls[k];
    }
  }

  /** The current descriptor is the one of the most recent key line. */
  lemma {:induction false} ScanEncryption(parse: UrlParser, base: string, ls: seq<string>)
    requires Scan(parse, base, ls).Ok?
    ensures KeyDescribes(parse, base, ls, Scan(parse, base, ls).value.encryption)
  {
    if |ls| > 0 {
      ScanEncryption(parse, base, ls[..|ls| - 1]);
    }
  }

  /** A key line is a comment, never a segment line. */
  lemma KeyLineIsComment(line: string)
    requires IsKeyLine(line)
    ensures !IsSegmentLine(line)
  {
    assert line[..|KeyTag|][..1] == line[..1];
  }

  /**
   * Segment `s` is the `k`-th one, taken from line `j`: index `k`, URL the
   * resolved line, descriptor that of the last key line before it.
   */
  predicate SegmentFrom(parse: UrlParser, base: string, ls: seq<string>, j: nat, k: nat, s: Segment)
    requires j < |ls|
  {
    && s.index == k
    && ResolveUrl(parse, ls[j], base) == Ok(s.url)
    && KeyDescribes(parse, base, ls[..j], s.encryption)
  }

  /** One segment per segment line, in order. */
  predicate SegmentsFrom(parse: UrlParser, base: string, ls: seq<string>, segs: seq<Segment>) {
    && |segs| == |Where(ls, IsSegmentLine)|
    && forall k :: 0 <= k < |segs| ==> SegmentFrom(parse, base, ls, Where(ls, IsSegmentLine)[k], k, segs[k])
  }

  lemma SegmentFromPrefix(parse: UrlParser, base: string, ls: seq<string>, j: nat, k: nat, s: Segment)
    requires j + 1 < |ls| && SegmentFrom(parse, base, ls[..|ls| - 1], j, k, s)
    ensures SegmentFrom(parse, base, ls, j, k, s)
  {
    assert ls[..|ls| - 1][..j] == ls[..j];
  }

  /** The segments a successful scan collects are exactly the segment lines, in order. */
  lemma {:induction false} ScanSegments(parse: UrlParser, base: string, ls: seq<string>)
    requires Scan(parse, base, ls).Ok?
    ensures SegmentsFrom(parse, base, ls, Scan(parse, base, ls).value.segments)
  {
    if |ls| > 0 {
      var front := ls[..|ls| - 1];
      var line := ls[|ls| - 1];
      ScanSegments(parse, base, front);
      var st0 := Scan(parse, base, front).value;
      var segs := Scan(parse, base, ls).value.segments;
      var w0 := Where(front, IsSegmentLine);
      forall k | 0 <= k < |w0|
        ensures SegmentFrom(parse, base, ls, w0[k], k, st0.segments[k])
      {
        SegmentFromPrefix(parse, base, ls, w0[k], k, st0.segments[k]);
      }
      if IsKeyLine(line) {
        KeyLineIsComment(line);
      }
      if IsSegmentLine(line) {
        ScanEncryption(parse, base, front);
        assert ls[..|front|] == front;
        assert Where(ls, IsSegmentLine) == w0 + [|front|];
        assert segs == st0.segments + [Segment(|st0.segments|, ResolveUrl(parse, line, base).value, st0.encryption)];
      } else {
        assert Where(ls, IsSegmentLine) == w0;
        assert segs == st0.segments;
      }
    }
  }

  function ContentSpec(parse: UrlParser, content: string, base: string): Result<Playlist, Error> {
    match Scan(parse, base, NodeLines(content))
    case Err(e) => Err(e)
    case Ok(st) =>
      if |st.segments| == 0 then Err(NoSegments)
      else Ok(Playlist(st.segments, st.encryption, base))
  }

  /**
   * A parsed media playlist: at least one segment, one per non-`#` line in
   * document order with indices 0, 1, 2, ..., each carrying the
   * descriptor of the key line before it; the top-level descriptor is the
   * last one seen, and no line held the master tag.
   */
  lemma ParsedPlaylist(parse: UrlParser, content: string, base: string)
    requires ContentSpec(parse, content, base).Ok?
    ensures |ContentSpec(parse, content, base).value.segments| == |Filter(NodeLines(content), IsSegmentLine)| > 0
    ensures SegmentsFrom(parse, base, NodeLines(content), ContentSpec(parse, content, base).value.segments)
    ensures forall k :: 0 <= k < |ContentSpec(parse, content, base).value.segments| ==>
      && ContentSpec(parse, content, base).value.segments[k].index == k
      && ResolveUrl(parse, Filter(NodeLines(content), IsSegmentLine)[k], base)
         == Ok(ContentSpec(parse, content, base).value.segments[k].url)
    ensures KeyDescribes(parse, base, NodeLines(content), ContentSpec(parse, content, base).value.encryption)
    ensures forall k :: 0 <= k < |NodeLines(content)| ==> !Contains(NodeLines(content)[k], StreamTag)
  {
    var ls := NodeLines(content);
    ScanSegments(parse, base, ls);
    ScanEncryption(parse, base, ls);
    ScanNoMaster(parse, base, ls);
    FilterAtWhere(ls, IsSegmentLine);
  }

  /** Every scanned line is a trimmed, non-empty piece of the content, in order. */
  lemma NodeLinesArePieces(content: string)
    ensures forall k :: 0 <= k < |NodeLines(content)| ==> |NodeLines(content)[k]| > 0
    ensures
      var pieces := Split(content, '\n');
      var trimmed := seq(|pieces|, k requires 0 <= k < |pieces| => JsTrim(pieces[k]));
      forall k :: 0 <= k < |NodeLines(content)| ==>
        k < |Where(trimmed, NonEmpty)| && NodeLines(content)[k] == JsTrim(pieces[Where(trimmed, NonEmpty)[k]])
  {
    var pieces := Split(content, '\n');
    var trimmed := seq(|pieces|, k requires 0 <= k < |pieces| => JsTrim(pieces[k]));
    FilterProperties(trimmed, NonEmpty);
    FilterAtWhere(trimmed, NonEmpty);
  }

  /** A line holding the master tag makes the whole parse fail. */
  lemma MasterIsRejected(parse: UrlParser, content: string, base: string, k: nat)
    requires k < |NodeLines(content)| && Contains(NodeLines(content)[k], StreamTag)
    ensures ContentSpec(parse, content, base).Err?
  {
    if Scan(parse, base, NodeLines(content)).Ok? {
      ScanNoMaster(parse, base, NodeLines(content));
    }
  }

  method ParseM3U8Content(parse: UrlParser, content: string, base: string) returns (r: Result<Playlist, Error>)
    ensures r == ContentSpec(parse, content, base)
  {
    var lines := NodeLines(content);
    var segments: seq<Segment> := [];
    var encryption: Option<KeyInfo> := None;
    var segmentIndex := 0;
    for i := 0 to |lines|
      invariant Scan(parse, base, lines[..i]) == Ok(State(segments, encryption))
      invariant segmentIndex == |segments|
    {
      var line := lines[i];
      ScanNext(parse, base, lines, i, State(segments, encryption));
      if Contains(line, StreamTag) {
        ScanStaysFailed(parse, base, lines, i + 1);
        return Err(MasterPlaylist);
      }
      if IsKeyLine(line) {
        var e := ParseEncryption(parse, line, base);
        if e.Err? {
          ScanStaysFailed(parse, base, lines, i + 1);
          return Err(e.error);
        }
        encryption := Some(e.value);
      }
      if !StartsWith(line, "#") && |line| > 0 {
        var u := ResolveUrl(parse, line, base);
        if u.Err? {
          ScanStaysFailed(parse, base, lines, i + 1);
          return Err(u.error);
        }
        segments := segments + [Segment(segmentIndex, u.value, encryption)];
        segmentIndex := segmentIndex + 1;
      }
    }
    assert lines[..|lines|] == lines;
    if |segments| == 0 {
      return Err(NoSegments);
    }
    return Ok(Playlist(segments, encryption, base));
  }

  // ---------------------------------------------------------------------
  // parse

  /**
   * `parse(url)`: fetch, base URL, content scan; every failure is rethrown
   * wrapped once.
   */
  method Parse(fetch: string -> Option<string>, parse: UrlParser, url: string) returns (r: Result<Playlist, Error>)
    ensures fetch(url).None? ==> r == Err(ParseFailed(FetchFailed(url)))
    ensures fetch(url).Some? && parse(url).None? ==> r == Err(ParseFailed(InvalidUrl(url)))
    ensures fetch(url).Some? && GetBaseUrl(parse, url).Ok? ==>
      match ContentSpec(parse, fetch(url).value, GetBaseUrl(parse, url).value)
      case Ok(p) => r == Ok(p)
      case Err(e) => r == Err(ParseFailed(e))
  {
    var content := fetch(url);
    if content.None? {
      return Err(ParseFailed(FetchFailed(url)));
    }
    var base := GetBaseUrl(parse, url);
    if base.Err? {
      return Err(ParseFailed(base.error));
    }
    var parsed := ParseM3U8Content(parse, content.value, base.value);
    if parsed.Err? {
      return Err(ParseFailed(parsed.error));
    }
    return parsed;
  }

  // ---------------------------------------------------------------------
  // validateM3U8

  /** A non-comment, non-empty line naming a `.ts`, `.m4s` or `.mp4` resource. */
  predicate IsMediaLine(line: string) {
    && !StartsWith(JsTrim(line), "#")
    && |JsTrim(line)| > 0
    && (Contains(line, ".ts") || Contains(line, ".m4s") || Contains(line, ".mp4"))
  }

  function ValidateM3U8(content: string): (r: bool)
    ensures r <==>
      && StartsWith(JsTrim(Split(content, '\n')[0]), "#EXTM3U")
      && exists k :: 0 <= k < |Split(content, '\n')| && IsMediaLine(Split(content, '\n')[k])
  {
    var lines := Split(content, '\n');
    var media := Where(lines, IsMediaLine);
    assert |media| > 0 ==> IsMediaLine(lines[media[0]]);
    StartsWith(JsTrim(lines[0]), "#EXTM3U") && |media| > 0
  }

  // ---------------------------------------------------------------------
  // parsePlaylist

  /** The attributes a `#EXT-X-STREAM-INF:` line sets. */
  datatype VariantAttrs = VariantAttrs(bandwidth: nat, resolution: string, codecs: string)

  /** A pushed playlist entry; `attrs` is None for a URL with no pending tag. */
  datatype Variant = Variant(attrs: Option<VariantAttrs>, url: string)

  /** `RESOLUTION=(\d+x\d+)` matches at `i`. */
  predicate ResolutionAt(line: string, i: nat) {
    var s := i + 11;
    && OccursAt(line, "RESOLUTION=", i)
    && s < |line| && IsDigit(line[s])
    && s + Run(line, s, IsDigit) + 1 < |line|
    && line[s + Run(line, s, IsDigit)] == 'x'
    && IsDigit(line[s + Run(line, s, IsDigit) + 1])
  }

  /** The leftmost resolution match at or after `from`. */
  function FirstResolution(line: string, from: nat): (r: Option<nat>)
    ensures r.Some? ==> from <= r.value && ResolutionAt(line, r.value)
    decreases |line| - from
  {
    if from >= |line| then None
    else if ResolutionAt(line, from) then Some(from)
    else FirstResolution(line, from + 1)
  }

  /** No match starts between `from` and the one found, and none at all when none is found. */
  lemma {:induction false} FirstResolutionIsLeftmost(line: string, from: nat, j: nat)
    requires from <= j
    requires FirstResolution(line, from).None? || j < FirstResolution(line, from).value
    ensures !ResolutionAt(line, j)
    decreases |line| - from
  {
    if from < |line| && !ResolutionAt(line, from) && from < j {
      FirstResolutionIsLeftmost(line, from + 1, j);
    }
  }

  /** The `WxH` text of the leftmost resolution match. */
  function Resolution(line: string): Option<string> {
    match FirstResolution(line, 0)
    case None => None
    case Some(i) => Some(ResolutionText(line, i))
  }

  /** The `WxH` group of a match at `i`: the digits after `RESOLUTION=`, the `x` and the digits after it. */
  function ResolutionText(line: string, i: nat): string
    requires ResolutionAt(line, i)
  {
    var s := i + 11;
    var x := s + Run(line, s, IsDigit);
    line[s..x + 1 + Run(line, x + 1, IsDigit)]
  }

  /** `WxH`: non-empty digit runs on both sides of one `x`. */
  predicate IsWxH(v: string) {
    exists k :: 0 < k < |v| - 1 && v[k] == 'x' && AllDigits(v[..k]) && AllDigits(v[k + 1..])
  }

  /** The resolution text is always of the form `WxH`. */
  lemma ResolutionShape(line: string)
    requires Resolution(line).Some?
    ensures IsWxH(Resolution(line).value)
  {
    WxHAt(line, FirstResolution(line, 0).value);
  }

  /** The text a resolution match at `i` captures is `WxH`. */
  lemma WxHAt(line: string, i: nat)
    requires ResolutionAt(line, i)
    ensures IsWxH(ResolutionText(line, i))
  {
    var s := i + 11;
    var x := s + Run(line, s, IsDigit);
    var e := x + 1 + Run(line, x + 1, IsDigit);
    var v := line[s..e];
    var k := x - s;
    assert v[k] == 'x';
    assert v[..k] == line[s..x];
    assert v[k + 1..] == line[x + 1..e];
    RunIsDigits(line, s);
    RunIsDigits(line, x + 1);
    assert 0 < k < |v| - 1 && v[k] == 'x' && AllDigits(v[..k]) && AllDigits(v[k + 1..]);
  }

  /** A run of digits is all digits. */
  lemma RunIsDigits(line: string, from: nat)
    requires from <= |line|
    ensures AllDigits(line[from..from + Run(line, from, IsDigit)])
  {
    var n := Run(line, from, IsDigit);
    var run := line[from..from + n];
    forall k | 0 <= k < |run| ensures IsDigit(run[k]) {
      assert run[k] == line[from + k];
    }
  }

  /** `BANDWIDTH=(\d+)`, `RESOLUTION=(\d+x\d+)` and `CODECS="([^"]+)"`, with defaults 0, '' and ''. */
  function AttrsOf(line: string): VariantAttrs {
    var bw := Capture(line, "BANDWIDTH=", IsDigit, false);
    VariantAttrs(
      if bw.Some? then DigitsValue(bw.value) else 0,
      Resolution(line).GetOr(""),
      Capture(line, "CODECS=\"", IsNotQuote, true).GetOr(""))
  }

  predicate IsVariantTag(line: string) {
    StartsWith(line, VariantTag)
  }

  datatype VariantState = VariantState(playlists: seq<Variant>, current: Option<VariantAttrs>)

  function VariantStep(parse: UrlParser, base: string, st: VariantState, line: string): Result<VariantState, Error> {
    if IsVariantTag(line) then Ok(VariantState(st.playlists, Some(AttrsOf(line))))
    else if IsSegmentLine(line) then
      match ResolveUrl(parse, line, base)
      case Err(e) => Err(e)
      case Ok(u) => Ok(VariantState(st.playlists + [Variant(st.current, u)], None))
    else Ok(st)
  }

  function VariantScan(parse: UrlParser, base: string, ls: seq<string>): Result<VariantState, Error> {
    if |ls| == 0 then Ok(VariantState([], None))
    else
      match VariantScan(parse, base, ls[..|ls| - 1])
      case Err(e) => Err(e)
      case Ok(st) => VariantStep(parse, base, st, ls[|ls| - 1])
  }

  /** The attributes pending after `ls`: those of the last tag no URL line has used. */
  function Pending(ls: seq<string>): Option<VariantAttrs> {
    match LastMarked(ls, IsVariantTag, IsSegmentLine)
    case None => None
    case Some(l) => Some(AttrsOf(l))
  }

  lemma {:induction false} VariantScanStaysFailed(parse: UrlParser, base: string, ls: seq<string>, k: nat)
    requires k <= |ls| && VariantScan(parse, base, ls[..k]).Err?
    ensures VariantScan(parse, base, ls) == VariantScan(parse, base, ls[..k])
    decreases |ls|
  {
    if k < |ls| {
      var front := ls[..|ls| - 1];
      assert front[..k] == ls[..k];
      VariantScanStaysFailed(parse, base, front, k);
    } else {
      assert ls[..k] == ls;
    }
  }

  /** The pending attributes are those of the last unconsumed tag. */
  lemma {:induction false} VariantScanPending(parse: UrlParser, base: string, ls: seq<string>)
    requires VariantScan(parse, base, ls).Ok?
    ensures VariantScan(parse, base, ls).value.current == Pending(ls)
  {
    if |ls| > 0 {
      VariantScanPending(parse, base, ls[..|ls| - 1]);
    }
  }

  /** A variant tag is a comment, never a URL line. */
  lemma VariantTagIsComment(line: string)
    requires IsVariantTag(line)
    ensures !IsSegmentLine(line)
  {
    assert line[..|VariantTag|][..1] == line[..1];
  }

  /** Entry `v` comes from line `j`: its URL resolved, the attributes pending before it. */
  predicate EntryFrom(parse: UrlParser, base: string, ls: seq<string>, j: nat, v: Variant)
    requires j < |ls|
  {
    ResolveUrl(parse, ls[j], base) == Ok(v.url) && v.attrs == Pending(ls[..j])
  }

  /** One entry per non-`#` line, in order. */
  predicate EntriesFrom(parse: UrlParser, base: string, ls: seq<string>, vs: seq<Variant>) {
    && |vs| == |Where(ls, IsSegmentLine)|
    && forall k :: 0 <= k < |vs| ==> EntryFrom(parse, base, ls, Where(ls, IsSegmentLine)[k], vs[k])
  }

  lemma EntryFromPrefix(parse: UrlParser, base: string, ls: seq<string>, j: nat, v: Variant)
    requires j + 1 < |ls| && EntryFrom(parse, base, ls[..|ls| - 1], j, v)
    ensures EntryFrom(parse, base, ls, j, v)
  {
    assert ls[..|ls| - 1][..j] == ls[..j];
  }

  /** The entries of a successful scan are the URL lines, in order, with their pending attributes. */
  lemma {:induction false} VariantScanEntries(parse: UrlParser, base: string, ls: seq<string>)
    requires VariantScan(parse, base, ls).Ok?
    ensures EntriesFrom(parse, base, ls, VariantScan(parse, base, ls).value.playlists)
  {
    if |ls| > 0 {
      var front := ls[..|ls| - 1];
      var line := ls[|ls| - 1];
      VariantScanEntries(parse, base, front);
      var st0 := VariantScan(parse, base, front).value;
      var vs := VariantScan(parse, base, ls).value.playlists;
      var w0 := Where(front, IsSegmentLine);
      forall k | 0 <= k < |w0|
        ensures EntryFrom(parse, base, ls, w0[k], st0.playlists[k])
      {
        EntryFromPrefix(parse, base, ls, w0[k], st0.playlists[k]);
      }
      if IsVariantTag(line) {
        VariantTagIsComment(line);
      }
      if IsSegmentLine(line) {
        VariantScanPending(parse, base, front);
        assert ls[..|front|] == front;
        assert Where(ls, IsSegmentLine) == w0 + [|front|];
        assert vs == st0.playlists + [Variant(st0.current, ResolveUrl(parse, line, base).value)];
      } else {
        assert Where(ls, IsSegmentLine) == w0;
        assert vs == st0.playlists;
      }
    }
  }

  /** A URL line right after a tag line carries that tag's attributes, bandwidth 0 when absent. */
  lemma TagThenUrl(ls: seq<string>, j: nat)
    requires j + 1 < |ls| && IsVariantTag(ls[j]) && IsSegmentLine(ls[j + 1])
    ensures Pending(ls[..j + 1]) == Some(AttrsOf(ls[j]))
    ensures Capture(ls[j], "BANDWIDTH=", IsDigit, false).None? ==> AttrsOf(ls[j]).bandwidth == 0
  {
    assert ls[..j + 1][j] == ls[j];
  }

  function PlaylistSpec(parse: UrlParser, content: string, base: string): Result<seq<Variant>, Error> {
    match VariantScan(parse, base, NodeLines(content))
    case Err(e) => Err(e)
    case Ok(st) => Ok(st.playlists)
  }

  method ParsePlaylist(parse: UrlParser, content: string, base: string) returns (r: Result<seq<Variant>, Error>)
    ensures r == PlaylistSpec(parse, content, base)
  {
    var lines := NodeLines(content);
    var playlists: seq<Variant> := [];
    var current: Option<VariantAttrs> := None;
    for i := 0 to |lines|
      invariant VariantScan(parse, base, lines[..i]) == Ok(VariantState(playlists, current))
    {
      var line := lines[i];
      assert VariantScan(parse, base, lines[..i + 1]) == VariantStep(parse, base, VariantState(playlists, current), line) by {
        assert lines[..i + 1][..i] == lines[..i];
      }
      if IsVariantTag(line) {
        current := Some(AttrsOf(line));
      } else if !StartsWith(line, "#") && |line| > 0 {
        var u := ResolveUrl(parse, line, base);
        if u.Err? {
          VariantScanStaysFailed(parse, base, lines, i + 1);
          return Err(u.error);
        }
        playlists := playlists + [Variant(current, u.value)];
        current := None;
      }
    }
    assert lines[..|lines|] == lines;
    return Ok(playlists);
  }
}
