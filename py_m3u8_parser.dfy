/**
 * The Django backend's playlist parser (`M3U8Parser` in
 * downloader/utils/m3u8_parser.py): base URL, attribute extraction, the
 * master-playlist scan, the media-playlist scan, the `EXT-X-KEY` descriptor
 * and the recursive `parse`.  Fetching, `urlparse` and `urljoin` are
 * parameters.
 */
module PyM3U8Parser {
  import opened Wrappers
  import opened Text
  import opened Seqs
  import opened Bytes

  const StreamTag := "#EXT-X-STREAM-INF"
  const KeyTag := "#EXT-X-KEY:"

  /** The parts of `urlparse(url)` that the base URL is made of. */
  datatype UrlParts = UrlParts(scheme: string, netloc: string, path: string)

  /** `urljoin(base, reference)`, left abstract. */
  type Joiner = (string, string) -> string

  datatype Stream = Stream(url: string, bandwidth: int, resolution: Option<string>)

  /** The dict `_parse_encryption_info` fills: a key is present iff it was set. */
  datatype EncryptionInfo = EncryptionInfo(methodName: Option<string>, key: Option<string>, iv: Option<string>)

  const NoEncryption := EncryptionInfo(None, None, None)

  /**
   * `_get_base_url`: scheme, "://", netloc, then the path without its last
   * `/`-component, then "/".
   */
  function GetBaseUrl(u: UrlParts): (r: string)
    ensures var k := LastIndexOfChar(u.path, '/');
      r == u.scheme + "://" + u.netloc + (if k < 0 then "" else u.path[..k]) + "/"
    ensures EndsWith(r, "/")
  {
    var parts := Split(u.path, '/');
    JoinSplitDropLast(u.path, '/');
    u.scheme + "://" + u.netloc + Join(parts[..|parts| - 1], '/') + "/"
  }

  /** Relative references (anything not starting with "http") go through `urljoin`. */
  function Resolve(join: Joiner, base: string, u: string): string {
    if StartsWith(u, "http") then u else join(base, u)
  }

  // ---------------------------------------------------------------------
  // _extract_attribute: re.search(ATTR + '=([^,\s]+)', text)

  /** `[^,\s]` */
  predicate IsValueChar(c: char) {
    c != ',' && !IsPySpace(c)
  }

  /** The pattern matches at `i`: `attr=` followed by at least one value character. */
  predicate MatchesAt(text: string, attr: string, i: nat) {
    OccursAt(text, attr + "=", i) && i + |attr| + 1 < |text| && IsValueChar(text[i + |attr| + 1])
  }

  /** `i` is the leftmost match, the one `re.search` reports. */
  predicate IsFirstMatch(text: string, attr: string, i: nat) {
    MatchesAt(text, attr, i) && forall j: nat :: j < i ==> !MatchesAt(text, attr, j)
  }

  function FirstMatch(text: string, attr: string, from: nat): (r: Option<nat>)
    ensures r.Some? ==> from <= r.value && MatchesAt(text, attr, r.value)
    ensures forall j: nat :: from <= j && (r.None? || j < r.value) ==> !MatchesAt(text, attr, j)
    decreases |text| - from
  {
    if from >= |text| then None
    else if MatchesAt(text, attr, from) then Some(from)
    else FirstMatch(text, attr, from + 1)
  }

  /** Length of the greedy run of value characters starting at `from`. */
  function ValueRun(text: string, from: nat): (n: nat)
    requires from <= |text|
    ensures from + n <= |text|
    ensures forall k :: from <= k < from + n ==> IsValueChar(text[k])
    ensures from + n == |text| || !IsValueChar(text[from + n])
    decreases |text| - from
  {
    if from < |text| && IsValueChar(text[from]) then 1 + ValueRun(text, from + 1) else 0
  }

  /** The captured group: the greedy run after `attr=` at match position `i`. */
  function RawValue(text: string, attr: string, i: nat): string
    requires i + |attr| + 1 <= |text|
  {
    var start := i + |attr| + 1;
    text[start..start + ValueRun(text, start)]
  }

  /** Python `v[1:-1]`. */
  function DropEnds(v: string): string {
    if |v| >= 2 then v[1..|v| - 1] else ""
  }

  /** One pair of matching surrounding quotes is removed. */
  function Unquote(v: string): (r: string)
    ensures |r| <= |v|
  {
    if StartsWith(v, "\"") && EndsWith(v, "\"") then DropEnds(v)
    else if StartsWith(v, "'") && EndsWith(v, "'") then DropEnds(v)
    else v
  }

  /**
   * A value opening and closing with the same quote character loses both
   * ends (a lone quote becomes empty); any other value is kept as it is.
   */
  lemma UnquoteCases(v: string)
    ensures |v| >= 2 && (v[0] == '"' || v[0] == '\'') && v[|v| - 1] == v[0] ==> Unquote(v) == v[1..|v| - 1]
    ensures v == "\"" || v == "'" ==> Unquote(v) == ""
    ensures !(|v| >= 1 && (v[0] == '"' || v[0] == '\'') && v[|v| - 1] == v[0]) ==> Unquote(v) == v
  {
    if |v| >= 1 {
      assert StartsWith(v, "\"") <==> v[0] == '"' by { assert v[..1] == [v[0]]; }
      assert StartsWith(v, "'") <==> v[0] == '\'' by { assert v[..1] == [v[0]]; }
      assert EndsWith(v, "\"") <==> v[|v| - 1] == '"' by { assert v[|v| - 1..] == [v[|v| - 1]]; }
      assert EndsWith(v, "'") <==> v[|v| - 1] == '\'' by { assert v[|v| - 1..] == [v[|v| - 1]]; }
    }
  }

  function ExtractAttribute(text: string, attr: string): Option<string> {
    match FirstMatch(text, attr, 0)
    case None => None
    case Some(i) => Some(Unquote(RawValue(text, attr, i)))
  }

  /** The attribute is absent iff the pattern matches nowhere. */
  lemma ExtractAttributeAbsent(text: string, attr: string)
    ensures ExtractAttribute(text, attr).None? <==> forall i: nat :: !MatchesAt(text, attr, i)
  {
    var m := FirstMatch(text, attr, 0);
    if m.Some? {
      assert MatchesAt(text, attr, m.value);
    }
  }

  /** The leftmost match decides the value. */
  lemma ExtractAttributeAt(text: string, attr: string, i: nat)
    requires IsFirstMatch(text, attr, i)
    ensures ExtractAttribute(text, attr) == Some(Unquote(RawValue(text, attr, i)))
  {
    assert MatchesAt(text, attr, i);
  }

  /** A maximal value run is exactly what ValueRun measures. */
  lemma ValueRunIs(text: string, from: nat, n: nat)
    requires from + n <= |text|
    requires forall k :: from <= k < from + n ==> IsValueChar(text[k])
    requires from + n == |text| || !IsValueChar(text[from + n])
    ensures ValueRun(text, from) == n
  {
  }


  /** Two attributes whose first matches put their values at the same place read the same value. */
  lemma SameValueStart(text: string, a: string, i: nat, b: string, j: nat)
    requires IsFirstMatch(text, a, i) && IsFirstMatch(text, b, j) && i + |a| == j + |b|
    ensures ExtractAttribute(text, a) == ExtractAttribute(text, b)
  {
    var start := i + |a| + 1;
    assert RawValue(text, a, i) == text[start..start + ValueRun(text, start)];
    assert RawValue(text, b, j) == text[start..start + ValueRun(text, start)];
    ExtractAttributeAt(text, a, i);
    ExtractAttributeAt(text, b, j);
  }

  /**
   * A BANDWIDTH lookup is a plain substring search: when the first
   * `AVERAGE-BANDWIDTH=` value comes before any other `BANDWIDTH=`, that
   * value is what BANDWIDTH returns.
   */
  lemma AverageBandwidthShadows(text: string, i: nat)
    requires IsFirstMatch(text, "AVERAGE-BANDWIDTH", i)
    requires forall j: nat :: j < i + 8 ==> !MatchesAt(text, "BANDWIDTH", j)
    ensures ExtractAttribute(text, "BANDWIDTH") == ExtractAttribute(text, "AVERAGE-BANDWIDTH")
  {
    assert MatchesAt(text, "BANDWIDTH", i + 8) by {
      assert text[i..i + 18] == "AVERAGE-BANDWIDTH=";
      assert text[i + 8..i + 18] == text[i..i + 18][8..];
      assert text[i..i + 18][8..] == "BANDWIDTH=";
    }
    SameValueStart(text, "BANDWIDTH", i + 8, "AVERAGE-BANDWIDTH", i);
  }

  // ---------------------------------------------------------------------
  // int(): optional sign, ASCII digits with single underscores between them,
  // surrounding white space allowed.

  predicate OnlyDigitsAndUnderscores(s: string) {
    forall k :: 0 <= k < |s| ==> IsDigit(s[k]) || s[k] == '_'
  }

  /** Digits, with single underscores allowed between two digits. */
  predicate IsPyDigits(s: string) {
    && |s| >= 1 && IsDigit(s[0]) && IsDigit(s[|s| - 1])
    && OnlyDigitsAndUnderscores(s)
    && forall k :: 0 <= k < |s| - 1 && s[k] == '_' ==> IsDigit(s[k + 1])
  }

  function DropUnderscores(s: string): (r: string)
    requires OnlyDigitsAndUnderscores(s)
    ensures AllDigits(r)
    ensures AllDigits(s) ==> r == s
  {
    if |s| == 0 then ""
    else (if s[0] == '_' then "" else [s[0]]) + DropUnderscores(s[1..])
  }

  /** `int(s)`: None where Python raises ValueError. */
  function PyInt(s: string): Option<int> {
    var t := PyStrip(s);
    var neg := |t| > 0 && t[0] == '-';
    var body := if |t| > 0 && (t[0] == '-' || t[0] == '+') then t[1..] else t;
    if IsPyDigits(body) then
      var n: int := DigitsValue(DropUnderscores(body));
      Some(if neg then -n else n)
    else None
  }

  lemma PyIntOfNatToString(n: nat)
    ensures PyInt(NatToString(n)) == Some(n)
  {
    var s := NatToString(n);
    TrimNothing(s, IsPySpace);
    DigitsValueOfNatToString(n);
  }

  // ---------------------------------------------------------------------
  // _parse_master_playlist

  function Lines(content: string): seq<string> {
    Split(PyStrip(content), '\n')
  }

  predicate IsStreamTagLine(line: string) {
    StartsWith(PyStrip(line), StreamTag)
  }

  /** `int(bandwidth) if bandwidth else 0`; None when int() raises. */
  function BandwidthValue(bandwidth: Option<string>): Option<int> {
    if bandwidth.None? || bandwidth.value == "" then Some(0) else PyInt(bandwidth.value)
  }

  /** The stream announced by the tag at `p`, whose URI is the next line. */
  function StreamAt(lines: seq<string>, p: nat, base: string, join: Joiner): Result<Stream, string>
    requires p + 1 < |lines|
  {
    var line := PyStrip(lines[p]);
    match BandwidthValue(ExtractAttribute(line, "BANDWIDTH"))
    case None => Err("ValueError")
    case Some(bw) =>
      Ok(Stream(Resolve(join, base, PyStrip(lines[p + 1])), bw, ExtractAttribute(line, "RESOLUTION")))
  }

  function Prepend<T>(front: seq<T>, r: Result<seq<T>, string>): Result<seq<T>, string> {
    match r
    case Ok(rest) => Ok(front + rest)
    case Err(e) => Err(e)
  }

  /** The tags the scan from line `i` reads, each with the next line as its URI. */
  function TagPositions(lines: seq<string>, i: nat): seq<nat> {
    PairedPositions(lines, i, IsStreamTagLine)
  }

  /** The streams the scan from line `i` collects. */
  function ScanFrom(lines: seq<string>, i: nat, base: string, join: Joiner): Result<seq<Stream>, string> {
    PairedPositionsAreTags(lines, i, IsStreamTagLine);
    MapResult(TagPositions(lines, i), (p: nat) requires p + 1 < |lines| => StreamAt(lines, p, base, join))
  }

  /** Index of the first stream of maximal bandwidth (Python `max` keeps the first). */
  function BestIndex(s: seq<Stream>): (k: nat)
    requires |s| > 0
    ensures k < |s|
    ensures forall j :: 0 <= j < |s| ==> s[j].bandwidth <= s[k].bandwidth
    ensures forall j :: 0 <= j < k ==> s[j].bandwidth < s[k].bandwidth
  {
    if |s| == 1 then 0
    else
      var k := BestIndex(s[..|s| - 1]);
      if s[|s| - 1].bandwidth > s[k].bandwidth then |s| - 1 else k
  }

  /** What `_parse_master_playlist` returns, or the error `int()` raises. */
  function MasterChoice(content: string, base: string, join: Joiner): Result<Option<string>, string> {
    match ScanFrom(Lines(content), 0, base, join)
    case Err(e) => Err(e)
    case Ok(s) => Ok(if |s| == 0 then None else Some(s[BestIndex(s)].url))
  }

  /** One step of the scan at a tag line with a next line. */
  lemma ScanAtTag(lines: seq<string>, i: nat, base: string, join: Joiner)
    requires i + 1 < |lines| && IsStreamTagLine(lines[i])
    ensures ScanFrom(lines, i, base, join) ==
      match StreamAt(lines, i, base, join)
      case Err(e) => Err(e)
      case Ok(st) => Prepend([st], ScanFrom(lines, i + 2, base, join))
  {
    var ps := TagPositions(lines, i);
    assert ps == [i] + TagPositions(lines, i + 2);
    assert ps[1..] == TagPositions(lines, i + 2);
  }

  /** A line the scan does not take as a tag with a URI changes nothing. */
  lemma ScanPastLine(lines: seq<string>, i: nat, base: string, join: Joiner)
    requires i < |lines| && !(i + 1 < |lines| && IsStreamTagLine(lines[i]))
    ensures ScanFrom(lines, i, base, join) == ScanFrom(lines, i + 1, base, join)
    ensures IsStreamTagLine(lines[i]) ==> ScanFrom(lines, i, base, join) == Ok([]) == ScanFrom(lines, i + 2, base, join)
  {
    assert IsStreamTagLine(lines[i]) ==> TagPositions(lines, i) == [];
    assert !IsStreamTagLine(lines[i]) ==> TagPositions(lines, i) == TagPositions(lines, i + 1);
  }

  lemma PrependNothing(r: Result<seq<Stream>, string>)
    ensures Prepend([], r) == r
  {
    if r.Ok? {
      assert [] + r.value == r.value;
    }
  }

  lemma PrependPrepend(a: seq<Stream>, b: seq<Stream>, r: Result<seq<Stream>, string>)
    ensures Prepend(a, Prepend(b, r)) == Prepend(a + b, r)
  {
    if r.Ok? {
      assert a + (b + r.value) == (a + b) + r.value;
    }
  }

  /**
   * A successful scan holds exactly one stream per tag position, the stream
   * that tag and the line after it describe.
   */
  lemma ScanFromAtTags(lines: seq<string>, base: string, join: Joiner)
    requires ScanFrom(lines, 0, base, join).Ok?
    ensures |ScanFrom(lines, 0, base, join).value| == |TagPositions(lines, 0)|
    ensures forall k :: 0 <= k < |TagPositions(lines, 0)| ==>
      && TagPositions(lines, 0)[k] + 1 < |lines|
      && StreamAt(lines, TagPositions(lines, 0)[k], base, join) == Ok(ScanFrom(lines, 0, base, join).value[k])
  {
    PairedPositionsAreTags(lines, 0, IsStreamTagLine);
    MapResultValues(TagPositions(lines, 0), (p: nat) requires p + 1 < |lines| => StreamAt(lines, p, base, join));
  }

  /** The scan raises iff int() rejects the BANDWIDTH of some tag position. */
  lemma ScanFromFails(lines: seq<string>, base: string, join: Joiner)
    ensures ScanFrom(lines, 0, base, join).Err? <==>
      exists k :: 0 <= k < |TagPositions(lines, 0)| && TagPositions(lines, 0)[k] + 1 < |lines|
        && StreamAt(lines, TagPositions(lines, 0)[k], base, join).Err?
  {
    PairedPositionsAreTags(lines, 0, IsStreamTagLine);
    MapResultFails(TagPositions(lines, 0), (p: nat) requires p + 1 < |lines| => StreamAt(lines, p, base, join));
  }

  /** A tag without BANDWIDTH contributes a stream of bandwidth 0. */
  lemma MissingBandwidthIsZero(lines: seq<string>, p: nat, base: string, join: Joiner)
    requires p + 1 < |lines|
    requires forall i: nat :: !MatchesAt(PyStrip(lines[p]), "BANDWIDTH", i)
    ensures StreamAt(lines, p, base, join).Ok? && StreamAt(lines, p, base, join).value.bandwidth == 0
  {
    ExtractAttributeAbsent(PyStrip(lines[p]), "BANDWIDTH");
  }

  method ParseMasterPlaylist(content: string, base: string, join: Joiner) returns (r: Result<Option<string>, string>)
    ensures r == MasterChoice(content, base, join)
  {
    var lines := Lines(content);
    var streams: seq<Stream> := [];
    var i := 0;
    PrependNothing(ScanFrom(lines, 0, base, join));
    while i < |lines|
      invariant 0 <= i <= |lines| + 1
      invariant ScanFrom(lines, 0, base, join) == Prepend(streams, ScanFrom(lines, i, base, join))
      decreases |lines| + 1 - i
    {
      var line := PyStrip(lines[i]);
      if StartsWith(line, StreamTag) {
        var bandwidth := ExtractAttribute(line, "BANDWIDTH");
        var resolution := ExtractAttribute(line, "RESOLUTION");
        if i + 1 < |lines| {
          ScanAtTag(lines, i, base, join);
          var streamUrl := PyStrip(lines[i + 1]);
          if !StartsWith(streamUrl, "http") {
            streamUrl := join(base, streamUrl);
          }
          var bw := BandwidthValue(bandwidth);
          if bw.None? {
            return Err("ValueError");
          }
          var st := Stream(streamUrl, bw.value, resolution);
          assert StreamAt(lines, i, base, join) == Ok(st);
          PrependPrepend(streams, [st], ScanFrom(lines, i + 2, base, join));
          streams := streams + [st];
        } else {
          ScanPastLine(lines, i, base, join);
        }
        i := i + 1;
      } else {
        ScanPastLine(lines, i, base, join);
      }
      i := i + 1;
    }
    assert TagPositions(lines, i) == [];
    assert ScanFrom(lines, i, base, join) == Ok([]);
    assert streams + [] == streams;
    assert ScanFrom(lines, 0, base, join) == Ok(streams);
    if |streams| > 0 {
      var best := BestIndex(streams);
      return Ok(Some(streams[best].url));
    }
    return Ok(None);
  }

  // ---------------------------------------------------------------------
  // _parse_media_playlist

  predicate IsSegmentLine(line: string) {
    var t := PyStrip(line);
    t != "" && !StartsWith(t, "#")
  }

  /** Each line stripped and resolved against the base URL. */
  function ResolveAll(join: Joiner, base: string, ls: seq<string>): (r: seq<string>)
    ensures |r| == |ls|
    ensures forall k :: 0 <= k < |ls| ==> r[k] == Resolve(join, base, PyStrip(ls[k]))
  {
    if |ls| == 0 then []
    else ResolveAll(join, base, ls[..|ls| - 1]) + [Resolve(join, base, PyStrip(ls[|ls| - 1]))]
  }

  /** The segment URLs: the non-empty, non-comment lines, stripped and resolved. */
  function MediaSegments(lines: seq<string>, base: string, join: Joiner): seq<string> {
    ResolveAll(join, base, Filter(lines, IsSegmentLine))
  }

  /**
   * The k-th segment is the k-th non-empty, non-comment line, stripped and
   * resolved; the positions of those lines are increasing and include every
   * such line.
   */
  lemma MediaSegmentsAreSegmentLines(lines: seq<string>, base: string, join: Joiner)
    ensures |MediaSegments(lines, base, join)| == |Where(lines, IsSegmentLine)|
    ensures forall k :: 0 <= k < |Where(lines, IsSegmentLine)| ==>
      MediaSegments(lines, base, join)[k] == Resolve(join, base, PyStrip(lines[Where(lines, IsSegmentLine)[k]]))
  {
    FilterAtWhere(lines, IsSegmentLine);
  }

  method ParseMediaPlaylist(content: string, base: string, join: Joiner) returns (segments: seq<string>)
    ensures segments == MediaSegments(Lines(content), base, join)
  {
    var lines := Lines(content);
    segments := [];
    for i := 0 to |lines|
      invariant segments == MediaSegments(lines[..i], base, join)
    {
      assert lines[..i + 1][..i] == lines[..i];
      var line := PyStrip(lines[i]);
      if line == "" || StartsWith(line, "#") {
        assert Filter(lines[..i + 1], IsSegmentLine) == Filter(lines[..i], IsSegmentLine);
        continue;
      }
      ghost var old_ := Filter(lines[..i], IsSegmentLine);
      assert Filter(lines[..i + 1], IsSegmentLine) == old_ + [lines[i]];
      if !StartsWith(line, "http") {
        line := join(base, line);
      }
      segments := segments + [line];
      assert (old_ + [lines[i]])[..|old_|] == old_;
    }
    assert lines[..|lines|] == lines;
  }

  // ---------------------------------------------------------------------
  // _parse_encryption_info: re.search(r'#EXT-X-KEY:(.+)', content)

  /** `#EXT-X-KEY:` followed by at least one character other than a newline. */
  predicate KeyTagAt(content: string, i: nat) {
    OccursAt(content, KeyTag, i) && i + |KeyTag| < |content| && content[i + |KeyTag|] != '\n'
  }

  function FirstKeyTag(content: string, from: nat): (r: Option<nat>)
    ensures r.Some? ==> from <= r.value && KeyTagAt(content, r.value)
    ensures forall j: nat :: from <= j && (r.None? || j < r.value) ==> !KeyTagAt(content, j)
    decreases |content| - from
  {
    if from >= |content| then None
    else if KeyTagAt(content, from) then Some(from)
    else FirstKeyTag(content, from + 1)
  }

  /** Length of the greedy `.+` run: characters up to the next newline. */
  function LineRun(content: string, from: nat): (n: nat)
    requires from <= |content|
    ensures from + n <= |content|
    ensures forall k :: from <= k < from + n ==> content[k] != '\n'
    ensures from + n == |content| || content[from + n] == '\n'
    decreases |content| - from
  {
    if from < |content| && content[from] != '\n' then 1 + LineRun(content, from + 1) else 0
  }

  /** The attribute text of the first `#EXT-X-KEY:` line, if there is one. */
  function KeyAttributes(content: string): Option<string> {
    match FirstKeyTag(content, 0)
    case None => None
    case Some(i) =>
      var start := i + |KeyTag|;
      Some(content[start..start + LineRun(content, start)])
  }

  function StripHexPrefix(iv: string): string {
    if StartsWith(iv, "0x") || StartsWith(iv, "0X") then iv[2..] else iv
  }

  predicate IsQuote(c: char) {
    c == '"' || c == '\''
  }

  /** The URL the key is fetched from: the URI value with quotes stripped, resolved. */
  function KeyUri(attrs: string, base: string, join: Joiner): Option<string> {
    var uri := ExtractAttribute(attrs, "URI");
    if uri.Some? && uri.value != "" then Some(Resolve(join, base, TrimEnd(TrimStart(uri.value, IsQuote), IsQuote)))
    else None
  }

  /**
   * The descriptor that one `#EXT-X-KEY:` attribute list gives; a key fetch
   * that raises is logged and leaves the key out.
   */
  function InfoFromAttributes(attrs: string, base: string, join: Joiner, fetchKey: string -> Option<bytes>): EncryptionInfo {
    var meth := ExtractAttribute(attrs, "METHOD");
    var iv := ExtractAttribute(attrs, "IV");
    var key :=
      match KeyUri(attrs, base, join)
      case None => None
      case Some(u) => if fetchKey(u).Some? then Some(ToHex(fetchKey(u).value)) else None;
    EncryptionInfo(
      if meth.Some? && meth.value != "" then meth else None,
      key,
      if iv.Some? && iv.value != "" then Some(StripHexPrefix(iv.value)) else None)
  }

  /** `method` and `iv` are present only when their attribute is found with a non-empty value; `method` is kept as found. */
  lemma InfoFieldsWhenFound(attrs: string, base: string, join: Joiner, fetchKey: string -> Option<bytes>)
    ensures var info := InfoFromAttributes(attrs, base, join, fetchKey);
      && (info.methodName.Some? <==> ExtractAttribute(attrs, "METHOD").Some? && ExtractAttribute(attrs, "METHOD").value != "")
      && (info.methodName.Some? ==> info.methodName == ExtractAttribute(attrs, "METHOD"))
      && (info.iv.Some? <==> ExtractAttribute(attrs, "IV").Some? && ExtractAttribute(attrs, "IV").value != "")
  {
  }

  /** The IV is stored without one leading `0x` or `0X`. */
  lemma IvLosesHexPrefix(attrs: string, base: string, join: Joiner, fetchKey: string -> Option<bytes>, prefix: string, h: string)
    requires prefix == "0x" || prefix == "0X"
    requires ExtractAttribute(attrs, "IV") == Some(prefix + h)
    ensures InfoFromAttributes(attrs, base, join, fetchKey).iv == Some(h)
  {
    assert (prefix + h)[..2] == prefix;
    assert (prefix + h)[2..] == h;
  }

  function EncryptionInfoOf(content: string, base: string, join: Joiner, fetchKey: string -> Option<bytes>): EncryptionInfo {
    match KeyAttributes(content)
    case None => NoEncryption
    case Some(attrs) => InfoFromAttributes(attrs, base, join, fetchKey)
  }

  /** The leftmost `#EXT-X-KEY:` match is the one the search reports. */
  lemma FirstKeyTagIs(content: string, i: nat)
    requires KeyTagAt(content, i)
    requires forall j: nat :: j < i ==> !KeyTagAt(content, j)
    ensures FirstKeyTag(content, 0) == Some(i)
  {
    assert KeyTagAt(content, i);
  }

  lemma LineRunIs(content: string, from: nat, n: nat)
    requires from + n <= |content|
    requires forall k :: from <= k < from + n ==> content[k] != '\n'
    requires from + n == |content| || content[from + n] == '\n'
    ensures LineRun(content, from) == n
  {
  }


  /** The first `#EXT-X-KEY:` line of the playlist ends with a newline. */
  predicate KeyLineEnds(content: string) {
    match FirstKeyTag(content, 0)
    case None => false
    case Some(i) => i + |KeyTag| + LineRun(content, i + |KeyTag|) < |content|
  }

  /**
   * Only the first `#EXT-X-KEY:` line counts: text appended after it,
   * further key lines included, leaves the attributes unchanged.
   */
  lemma FirstKeyLineDecides(content: string, post: string)
    requires KeyLineEnds(content)
    ensures KeyAttributes(content + post) == KeyAttributes(content)
  {
    var c := content + post;
    var i := FirstKeyTag(content, 0).value;
    var start := i + |KeyTag|;
    var n := LineRun(content, start);
    forall j: nat | j < i
      ensures !KeyTagAt(c, j)
    {
      KeyTagAtExtended(content, post, j);
    }
    KeyTagAtExtended(content, post, i);
    FirstKeyTagIs(c, i);
    LineRunExtended(content, post, start);
    assert c[start..start + n] == content[start..start + n];
  }

  /** Whether a key tag starts at `j` is settled by text before the end, whatever follows. */
  lemma KeyTagAtExtended(content: string, post: string, j: nat)
    requires j + |KeyTag| < |content|
    ensures KeyTagAt(content + post, j) <==> KeyTagAt(content, j)
  {
    var c := content + post;
    assert c[j..j + |KeyTag|] == content[j..j + |KeyTag|];
    assert c[j + |KeyTag|] == content[j + |KeyTag|];
  }

  /** A line that ends before the end of the text keeps its length whatever follows. */
  lemma LineRunExtended(content: string, post: string, from: nat)
    requires from <= |content| && from + LineRun(content, from) < |content|
    ensures LineRun(content + post, from) == LineRun(content, from)
  {
    var c := content + post;
    var n := LineRun(content, from);
    forall k | from <= k < from + n
      ensures c[k] != '\n'
    {
      assert c[k] == content[k];
    }
    assert c[from + n] == content[from + n];
    LineRunIs(c, from, n);
  }

  /**
   * The key is present iff it was fetched, and the hex text stored is
   * decoded by `bytes.fromhex` to exactly the fetched bytes.
   */
  lemma StoredKeyIsFetchedKey(attrs: string, base: string, join: Joiner, fetchKey: string -> Option<bytes>)
    ensures InfoFromAttributes(attrs, base, join, fetchKey).key.Some? <==>
      KeyUri(attrs, base, join).Some? && fetchKey(KeyUri(attrs, base, join).value).Some?
    ensures InfoFromAttributes(attrs, base, join, fetchKey).key.Some? ==>
      PyFromHex(InfoFromAttributes(attrs, base, join, fetchKey).key.value) == fetchKey(KeyUri(attrs, base, join).value)
  {
    var u := KeyUri(attrs, base, join);
    if u.Some? && fetchKey(u.value).Some? {
      PyFromHexOfToHex(fetchKey(u.value).value);
    }
  }

  // ---------------------------------------------------------------------
  // parse

  /**
   * What `parse` depends on: the playlist fetch (None when `get` or
   * `raise_for_status` raises), the key fetch, `urlparse` and `urljoin`.
   */
  datatype Env = Env(
    fetch: string -> Option<string>,
    fetchKey: string -> Option<bytes>,
    urlparse: string -> UrlParts,
    join: Joiner)

  datatype Parsed = Parsed(segments: seq<string>, encryption: EncryptionInfo)

  /** `([], {})`: what every caught exception gives. */
  const Failed := Parsed([], NoEncryption)

  /** A fetched playlist taken as a media playlist. */
  function MediaParse(env: Env, url: string, content: string): Parsed {
    var base := GetBaseUrl(env.urlparse(url));
    Parsed(MediaSegments(Lines(content), base, env.join), EncryptionInfoOf(content, base, env.join, env.fetchKey))
  }

  /** What one fetched playlist leads to: another playlist to parse, or a result. */
  datatype Step = Redirect(target: string) | Done(result: Parsed)

  /**
   * A playlist containing a STREAM-INF tag anywhere is a master playlist and
   * redirects to its chosen stream; a missing or empty choice, or an
   * exception in the scan, gives `([], {})`.
   */
  function ParseStep(env: Env, url: string, content: string): Step {
    if Contains(content, StreamTag) then
      match MasterChoice(content, GetBaseUrl(env.urlparse(url)), env.join)
      case Ok(Some(u)) => if u != "" then Redirect(u) else Done(Failed)
      case _ => Done(Failed)
    else Done(MediaParse(env, url, content))
  }

  /**
   * Fetch and step from `url` until a step is done, with `depth` levels of
   * recursion left before Python's recursion limit raises (and is caught,
   * giving `([], {})`); a failed fetch gives `([], {})` too.
   */
  function Follow(fetch: string -> Option<string>, step: (string, string) -> Step, url: string, depth: nat): Parsed
    decreases depth
  {
    if depth == 0 then Failed
    else match fetch(url)
      case None => Failed
      case Some(content) =>
        match step(url, content)
        case Redirect(u) => Follow(fetch, step, u, depth - 1)
        case Done(p) => p
  }

  /** Every result the chain gives other than the failure value is some fetched playlist's step. */
  lemma {:induction false} FollowOrigin(fetch: string -> Option<string>, step: (string, string) -> Step, url: string, depth: nat)
    ensures || Follow(fetch, step, url, depth) == Failed
            || exists u, content :: fetch(u) == Some(content) && step(u, content) == Done(Follow(fetch, step, url, depth))
    decreases depth
  {
    if depth > 0 && fetch(url).Some? {
      var content := fetch(url).value;
      if step(url, content).Redirect? {
        FollowOrigin(fetch, step, step(url, content).target, depth - 1);
      }
    }
  }

  function StepOf(env: Env): (string, string) -> Step {
    (u: string, content: string) => ParseStep(env, u, content)
  }

  /** What `parse(url)` returns with `depth` levels of recursion left. */
  function ParseSpec(env: Env, url: string, depth: nat): Parsed {
    Follow(env.fetch, StepOf(env), url, depth)
  }

  /** `parse(url)` with `depth` levels of recursion left. */
  method Parse(env: Env, url: string, depth: nat) returns (r: Parsed)
    ensures r == ParseSpec(env, url, depth)
    decreases depth
  {
    if depth == 0 {
      return Failed;
    }
    var response := env.fetch(url);
    if response.None? {
      return Failed;
    }
    var step := ReadPlaylist(env, url, response.value);
    assert StepOf(env)(url, response.value) == step;
    match step
    case Redirect(streamUrl) =>
      r := Parse(env, streamUrl, depth - 1);
    case Done(p) =>
      r := p;
  }

  /**
   * The body of `parse` once the playlist is fetched: a master playlist
   * names the stream to parse next, a media playlist gives the result.
   */
  method ReadPlaylist(env: Env, url: string, content: string) returns (step: Step)
    ensures step == ParseStep(env, url, content)
  {
    var base := GetBaseUrl(env.urlparse(url));
    if Contains(content, StreamTag) {
      var streamUrl := ParseMasterPlaylist(content, base, env.join);
      if streamUrl.Err? {
        return Done(Failed);
      }
      if streamUrl.value.Some? && streamUrl.value.value != "" {
        return Redirect(streamUrl.value.value);
      }
      return Done(Failed);
    }
    var segments := ParseMediaPlaylist(content, base, env.join);
    var info := EncryptionInfoOf(content, base, env.join, env.fetchKey);
    return Done(Parsed(segments, info));
  }

  /**
   * One level of `parse`: no recursion left or a failed fetch gives
   * `([], {})`; a master playlist goes on with its chosen non-empty stream
   * and gives `([], {})` without one or when the scan raises; any other
   * playlist is read as a media playlist.
   */
  lemma ParseOneLevel(env: Env, url: string, depth: nat)
    ensures depth == 0 || env.fetch(url).None? ==> ParseSpec(env, url, depth) == Failed
    ensures depth > 0 && env.fetch(url).Some? && !Contains(env.fetch(url).value, StreamTag) ==>
      ParseSpec(env, url, depth) == MediaParse(env, url, env.fetch(url).value)
    ensures depth > 0 && env.fetch(url).Some? && Contains(env.fetch(url).value, StreamTag) ==>
      var choice := MasterChoice(env.fetch(url).value, GetBaseUrl(env.urlparse(url)), env.join);
      ParseSpec(env, url, depth) ==
        if choice.Ok? && choice.value.Some? && choice.value.value != "" then ParseSpec(env, choice.value.value, depth - 1)
        else Failed
  {
    if depth > 0 && env.fetch(url).Some? {
      var content := env.fetch(url).value;
      assert StepOf(env)(url, content) == ParseStep(env, url, content);
    }
  }

  /** A step that ends with segments read the playlist as a media playlist. */
  lemma DoneWithSegmentsIsMedia(env: Env, url: string, content: string)
    requires ParseStep(env, url, content).Done? && ParseStep(env, url, content).result.segments != []
    ensures !Contains(content, StreamTag) && ParseStep(env, url, content).result == MediaParse(env, url, content)
  {
  }

  /**
   * A parse with segments comes from one fetched playlist without a
   * STREAM-INF tag, read as a media playlist; master playlists only
   * redirect.
   */
  lemma ParseOrigin(env: Env, url: string, depth: nat)
    requires ParseSpec(env, url, depth).segments != []
    ensures exists u, content ::
      && env.fetch(u) == Some(content) && !Contains(content, StreamTag)
      && ParseSpec(env, url, depth) == MediaParse(env, u, content)
  {
    FollowOrigin(env.fetch, StepOf(env), url, depth);
    var u, content :| env.fetch(u) == Some(content) && StepOf(env)(u, content) == Done(ParseSpec(env, url, depth));
    DoneWithSegmentsIsMedia(env, u, content);
  }
}
