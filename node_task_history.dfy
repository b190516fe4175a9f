/**
 * The Express backend's task history (backend-node/controllers/taskController.js):
 * an in-memory array of history records that the routes list, delete
 * from, clear, count and export, and that other modules upsert into and
 * update.
 *
 * Timestamps are ISO strings, as the source stores them; `nowIso` stands
 * for `new Date().toISOString()` and `parseDate` for `new Date(text)` as a
 * number of milliseconds.
 */
module NodeTaskHistory {
  import opened Wrappers
  import opened Text
  import opened Seqs
  import T = NodeDownloadTask
  import Bytes

  /** A history record. */
  datatype HistoryTask = HistoryTask(
    id: string,
    title: string,
    url: string,
    status: string,
    createdAt: string,
    completedAt: Option<string>,
    totalSegments: int,
    downloadedSegments: int,
    fileSize: int,
    error: Option<string>)

  const NoSuchTask := "任务不存在"
  const TaskDeleted := "任务记录已删除"
  const HistoryCleared := "任务历史已清空"
  const UnsupportedFormat := "不支持的导出格式"

  function HasStatus(s: string): HistoryTask -> bool {
    (t: HistoryTask) => t.status == s
  }

  function LacksStatus(s: string): HistoryTask -> bool {
    (t: HistoryTask) => t.status != s
  }

  /** The ids are pairwise different. */
  predicate UniqueIds(tasks: seq<HistoryTask>) {
    forall i, j :: 0 <= i < j < |tasks| ==> tasks[i].id != tasks[j].id
  }

  /** `findIndex(t => t.id === taskId)`: the first record with the id, or -1. */
  function FindIndex(tasks: seq<HistoryTask>, taskId: string): (r: int)
    ensures -1 <= r < |tasks|
    ensures r >= 0 ==> tasks[r].id == taskId
    ensures forall j :: 0 <= j < |tasks| && (r < 0 || j < r) ==> tasks[j].id != taskId
  {
    if |tasks| == 0 then -1
    else if tasks[0].id == taskId then 0
    else
      var k := FindIndex(tasks[1..], taskId);
      if k < 0 then -1 else k + 1
  }

  // ---------------------------------------------------------------------
  // GET /list
  // ---------------------------------------------------------------------

  /** The sort key of `/list`: the creation time in milliseconds. */
  function CreatedKey(parseDate: string -> int): HistoryTask -> int {
    (t: HistoryTask) => parseDate(t.createdAt)
  }

  /** Newest first: each element's key is at least that of every later one. */
  predicate NewestFirst<X>(s: seq<X>, key: X -> int) {
    forall i, j :: 0 <= i < j < |s| ==> key(s[i]) >= key(s[j])
  }

  function KeyIs<X>(key: X -> int, k: int): X -> bool {
    (x: X) => key(x) == k
  }

  /** `x` put after every element whose key is at least its own. */
  function Insert<X>(s: seq<X>, x: X, key: X -> int): (r: seq<X>)
    ensures |r| == |s| + 1
  {
    if |s| == 0 || key(s[|s| - 1]) >= key(x) then s + [x]
    else Insert(s[..|s| - 1], x, key) + [s[|s| - 1]]
  }

  /** `sort((a, b) => key(b) - key(a))`, a stable sort on descending key. */
  function SortNewestFirst<X>(xs: seq<X>, key: X -> int): (r: seq<X>)
    ensures |r| == |xs|
  {
    if |xs| == 0 then [] else Insert(SortNewestFirst(xs[..|xs| - 1], key), xs[|xs| - 1], key)
  }

  lemma {:induction false} InsertKeepsOrder<X>(s: seq<X>, x: X, key: X -> int)
    requires NewestFirst(s, key)
    ensures NewestFirst(Insert(s, x, key), key)
    ensures multiset(Insert(s, x, key)) == multiset(s) + multiset{x}
    decreases |s|
  {
    if |s| > 0 && key(s[|s| - 1]) < key(x) {
      var front := s[..|s| - 1];
      var last := s[|s| - 1];
      assert s == front + [last];
      assert NewestFirst(front, key) by {
        forall i, j | 0 <= i < j < |front| ensures key(front[i]) >= key(front[j]) {
          assert front[i] == s[i] && front[j] == s[j];
        }
      }
      InsertKeepsOrder(front, x, key);
      var mid := Insert(front, x, key);
      assert Insert(s, x, key) == mid + [last];
      assert forall m :: 0 <= m < |front| ==> key(front[m]) >= key(last) by {
        forall m | 0 <= m < |front| ensures key(front[m]) >= key(last) {
          assert front[m] == s[m];
        }
      }
      AppendSmallest(mid, front, x, last, key);
    }
  }

  /**
   * An element whose key is at most those of `front` and of `x` can go
   * after any ordering of `front` and `x`.
   */
  lemma AppendSmallest<X>(mid: seq<X>, front: seq<X>, x: X, last: X, key: X -> int)
    requires NewestFirst(mid, key) && multiset(mid) == multiset(front) + multiset{x}
    requires key(x) >= key(last)
    requires forall m :: 0 <= m < |front| ==> key(front[m]) >= key(last)
    ensures NewestFirst(mid + [last], key)
  {
    forall i | 0 <= i < |mid| ensures key(mid[i]) >= key(last) {
      assert mid[i] in multiset(mid);
      if mid[i] != x {
        assert mid[i] in multiset(front);
        var m :| 0 <= m < |front| && front[m] == mid[i];
      }
    }
    var r := mid + [last];
    forall i, j | 0 <= i < j < |r| ensures key(r[i]) >= key(r[j]) {
      assert r[i] == mid[i];
      if j < |mid| {
        assert r[j] == mid[j];
      }
    }
  }

  /** Among the elements of one key, the insertion keeps the old order and puts `x` last. */
  lemma {:induction false} InsertIsStable<X>(s: seq<X>, x: X, key: X -> int, k: int)
    ensures Filter(Insert(s, x, key), KeyIs(key, k)) == Filter(s, KeyIs(key, k)) + (if key(x) == k then [x] else [])
    decreases |s|
  {
    var p := KeyIs(key, k);
    if |s| == 0 || key(s[|s| - 1]) >= key(x) {
      FilterAppend(s, [x], p);
      assert Filter([x], p) == (if key(x) == k then [x] else []) by {
        assert [x][..0] == [];
      }
    } else {
      var front := s[..|s| - 1];
      var last := s[|s| - 1];
      InsertIsStable(front, x, key, k);
      var r := Insert(front, x, key);
      assert Insert(s, x, key) == r + [last];
      assert r + [last] == (r + [last])[..|r|] + [last];
    }
  }

  /** The sort orders newest first and keeps every element. */
  lemma {:induction false} SortOrders<X>(xs: seq<X>, key: X -> int)
    ensures NewestFirst(SortNewestFirst(xs, key), key)
    ensures multiset(SortNewestFirst(xs, key)) == multiset(xs)
  {
    if |xs| > 0 {
      var front := xs[..|xs| - 1];
      SortOrders(front, key);
      InsertKeepsOrder(SortNewestFirst(front, key), xs[|xs| - 1], key);
      assert xs == front + [xs[|xs| - 1]];
    }
  }

  /** The sort is stable: records with equal timestamps keep their order in the array. */
  lemma {:induction false} SortIsStable<X>(xs: seq<X>, key: X -> int, k: int)
    ensures Filter(SortNewestFirst(xs, key), KeyIs(key, k)) == Filter(xs, KeyIs(key, k))
  {
    if |xs| > 0 {
      var front := xs[..|xs| - 1];
      SortIsStable(front, key, k);
      InsertIsStable(SortNewestFirst(front, key), xs[|xs| - 1], key, k);
    }
  }

  // ---------------------------------------------------------------------
  // parseInt of the query parameters
  // ---------------------------------------------------------------------

  /** The length of the longest prefix of `s` whose characters satisfy `p`. */
  function LeadingRun(s: string, p: char -> bool): (n: nat)
    ensures n <= |s|
    ensures forall k :: 0 <= k < n ==> p(s[k])
    ensures n == |s| || !p(s[n])
  {
    if |s| > 0 && p(s[0]) then 1 + LeadingRun(s[1..], p) else 0
  }

  predicate AllHex(s: string) {
    forall k :: 0 <= k < |s| ==> Bytes.IsHexDigit(s[k])
  }

  /** The number a string of hexadecimal digits denotes. */
  function HexDigitsValue(s: string): nat
    requires AllHex(s)
  {
    if |s| == 0 then 0 else HexDigitsValue(s[..|s| - 1]) * 16 + Bytes.HexValue(s[|s| - 1])
  }

  /** The leading decimal digits of `u` and their value; `None` when there are none. */
  function DecimalPrefix(u: string): Option<nat> {
    var n := LeadingRun(u, IsDigit);
    if n == 0 then None
    else
      assert AllDigits(u[..n]) by {
        forall k | 0 <= k < n ensures IsDigit(u[..n][k]) {
          assert u[..n][k] == u[k];
        }
      }
      Some(DigitsValue(u[..n]))
  }

  /** The leading hexadecimal digits of `u` and their value; `None` when there are none. */
  function HexPrefix(u: string): Option<nat> {
    var n := LeadingRun(u, Bytes.IsHexDigit);
    if n == 0 then None
    else
      assert AllHex(u[..n]) by {
        forall k | 0 <= k < n ensures Bytes.IsHexDigit(u[..n][k]) {
          assert u[..n][k] == u[k];
        }
      }
      Some(HexDigitsValue(u[..n]))
  }

  predicate HasHexPrefix(u: string) {
    |u| >= 2 && u[0] == '0' && (u[1] == 'x' || u[1] == 'X')
  }

  /**
   * `parseInt(s)` without a radix: leading white space is skipped, then one
   * optional sign, then as many hexadecimal digits as follow `0x` or `0X`,
   * or else as many decimal digits as follow; `None` is NaN, when no digit
   * follows.
   */
  function JsParseInt(s: string): Option<int> {
    var t := TrimStart(s, IsJsSpace);
    var signed := |t| > 0 && (t[0] == '-' || t[0] == '+');
    var u := if signed then t[1..] else t;
    var magnitude := if HasHexPrefix(u) then HexPrefix(u[2..]) else DecimalPrefix(u);
    if magnitude.None? then None
    else
      var m: int := magnitude.value;
      if signed && t[0] == '-' then Some(-m) else Some(m)
  }

  /** `parseInt` reads back the decimal text of any integer. */
  lemma ParseIntReadsDecimal(i: int)
    ensures JsParseInt(IntToString(i)) == Some(i)
  {
    var n: nat := if i < 0 then -i else i;
    var d := NatToString(n);
    DigitsValueOfNatToString(n);
    assert DecimalPrefix(d) == Some(n) by {
      LeadingRunAll(d, IsDigit);
      assert d[..|d|] == d;
    }
    assert !HasHexPrefix(d) by {
      assert d + "" == d;
      NoHexPrefix(d, "");
    }
    if i < 0 {
      var s := "-" + d;
      assert TrimStart(s, IsJsSpace) == s;
      assert s[1..] == d;
    } else {
      ParseIntOfPlainDecimal(d);
    }
  }

  /**
   * `parseInt` reads the leading digits and ignores what follows them, as
   * it reads `10x` as 10; only a lone `0` before an `x` starts a
   * hexadecimal number instead.
   */
  lemma ParseIntStopsAtNonDigit(d: string, rest: string)
    requires |d| > 0 && AllDigits(d)
    requires |rest| == 0 || !IsDigit(rest[0])
    requires !(d == "0" && |rest| > 0 && (rest[0] == 'x' || rest[0] == 'X'))
    ensures JsParseInt(d + rest) == Some(DigitsValue(d))
  {
    var s := d + rest;
    assert s[0] == d[0] && IsDigit(s[0]);
    NoHexPrefix(d, rest);
    DecimalPrefixOfDigits(d, rest);
    ParseIntOfPlainDecimal(s);
  }

  /** Text that opens with a digit and not with `0x` is read in base 10. */
  lemma ParseIntOfPlainDecimal(s: string)
    requires |s| > 0 && IsDigit(s[0]) && !HasHexPrefix(s)
    ensures DecimalPrefix(s).Some? && JsParseInt(s) == Some(DecimalPrefix(s).value)
  {
    assert TrimStart(s, IsJsSpace) == s;
  }

  lemma NoHexPrefix(d: string, rest: string)
    requires |d| > 0 && AllDigits(d)
    requires !(d == "0" && |rest| > 0 && (rest[0] == 'x' || rest[0] == 'X'))
    ensures !HasHexPrefix(d + rest)
  {
    var s := d + rest;
    if |s| >= 2 && s[0] == '0' {
      if |d| >= 2 {
        assert s[1] == d[1] && IsDigit(d[1]);
      } else {
        assert s[1] == rest[0];
      }
    }
  }

  lemma DecimalPrefixOfDigits(d: string, rest: string)
    requires |d| > 0 && AllDigits(d)
    requires |rest| == 0 || !IsDigit(rest[0])
    ensures DecimalPrefix(d + rest) == Some(DigitsValue(d))
  {
    LeadingRunOfDigits(d, rest);
    assert (d + rest)[..|d|] == d;
  }

  lemma {:induction false} LeadingRunOfDigits(d: string, rest: string)
    requires AllDigits(d)
    requires |rest| == 0 || !IsDigit(rest[0])
    ensures LeadingRun(d + rest, IsDigit) == |d|
    decreases |d|
  {
    if |d| == 0 {
      assert d + rest == rest;
    } else {
      assert (d + rest)[1..] == d[1..] + rest;
      LeadingRunOfDigits(d[1..], rest);
    }
  }

  /** `0x` followed by hexadecimal digits is read in base 16. */
  lemma ParseIntReadsHex(h: string)
    requires |h| > 0 && AllHex(h)
    ensures JsParseInt("0x" + h) == Some(HexDigitsValue(h))
  {
    var s := "0x" + h;
    assert TrimStart(s, IsJsSpace) == s;
    assert HasHexPrefix(s) && s[2..] == h;
    assert LeadingRun(h, Bytes.IsHexDigit) == |h| by {
      LeadingRunAll(h, Bytes.IsHexDigit);
    }
    assert h[..|h|] == h;
  }

  lemma {:induction false} LeadingRunAll(s: string, p: char -> bool)
    requires forall k :: 0 <= k < |s| ==> p(s[k])
    ensures LeadingRun(s, p) == |s|
    decreases |s|
  {
    if |s| > 0 {
      LeadingRunAll(s[1..], p);
    }
  }

  /** Text that does not open with white space, a sign or a digit is NaN, and so is the empty text. */
  lemma ParseIntWithoutDigits(s: string)
    requires |s| == 0 || (!IsJsSpace(s[0]) && s[0] != '-' && s[0] != '+' && !IsDigit(s[0]))
    ensures JsParseInt(s) == None
  {
    assert TrimStart(s, IsJsSpace) == s;
  }

  /** A query parameter: `parseInt` of the text given, or the route's number when it is absent. */
  function QueryInt(q: Option<string>, default: int): Option<int> {
    if q.None? then Some(default) else JsParseInt(q.value)
  }

  /** The records `/list` works on: those of the status when one is given. */
  function Matching(tasks: seq<HistoryTask>, status: Option<string>): seq<HistoryTask> {
    if status.Some? && status.value != "" then Filter(tasks, HasStatus(status.value)) else tasks
  }

  /** The reply of `/list`: `None` stands for `NaN`, which JSON renders as `null`. */
  datatype Page = Page(tasks: seq<HistoryTask>, total: nat, limit: Option<int>, offset: Option<int>, hasMore: bool)

  /**
   * `GET /list?status&limit&offset`: the parameters are query text, read
   * with `parseInt`, and default to 50 and 0. A NaN bound is 0 to `slice`,
   * and a NaN sum compares false.
   */
  function ListPage(tasks: seq<HistoryTask>, status: Option<string>, limit: Option<string>, offset: Option<string>,
                    parseDate: string -> int): Page {
    var filtered := Matching(tasks, status);
    var l := QueryInt(limit, 50);
    var o := QueryInt(offset, 0);
    var end := if o.Some? && l.Some? then o.value + l.value else 0;
    var hasMore := o.Some? && l.Some? && o.value + l.value < |filtered|;
    Page(JsSlice(SortNewestFirst(filtered, CreatedKey(parseDate)), o.GetOr(0), end), |filtered|, l, o, hasMore)
  }

  /**
   * `total` is the number of records of the status (of all records without
   * one), counted before paging; `limit` and `offset` are the parameters as
   * `parseInt` reads them; `hasMore` says the window ends before `total`;
   * a parameter that reads as NaN gives an empty page and no more.
   */
  lemma ListTotal(tasks: seq<HistoryTask>, status: Option<string>, limit: Option<string>, offset: Option<string>,
                  parseDate: string -> int)
    ensures var p := ListPage(tasks, status, limit, offset, parseDate);
      && p.total == (if status.Some? && status.value != "" then Count(tasks, HasStatus(status.value)) else |tasks|)
      && p.limit == QueryInt(limit, 50) && p.offset == QueryInt(offset, 0)
      && (p.hasMore <==> p.offset.Some? && p.limit.Some? && p.offset.value + p.limit.value < p.total)
      && (p.limit.None? || p.offset.None? ==> p.tasks == [] && !p.hasMore)
  {
    if status.Some? && status.value != "" {
      FilterProperties(tasks, HasStatus(status.value));
    }
    var o := QueryInt(offset, 0);
    var sorted := SortNewestFirst(Matching(tasks, status), CreatedKey(parseDate));
    if o.None? || QueryInt(limit, 50).None? {
      assert JsSlice(sorted, o.GetOr(0), 0) == [];
    }
  }

  /** Without parameters the page is the 50 newest matching records. */
  lemma ListDefaults(tasks: seq<HistoryTask>, status: Option<string>, parseDate: string -> int)
    ensures var p := ListPage(tasks, status, None, None, parseDate);
      var sorted := SortNewestFirst(Matching(tasks, status), CreatedKey(parseDate));
      && p.limit == Some(50) && p.offset == Some(0)
      && p.tasks == sorted[..if 50 < |sorted| then 50 else |sorted|]
      && (p.hasMore <==> 50 < |sorted|)
  {
    var sorted := SortNewestFirst(Matching(tasks, status), CreatedKey(parseDate));
    JsSliceWindow(sorted, 0, 50);
  }

  /**
   * When both parameters read as non-negative numbers the page is
   * `[offset, offset + limit)` of the matching records, newest first, cut
   * at the end; empty from the end on.
   */
  lemma ListWindow(tasks: seq<HistoryTask>, status: Option<string>, limit: Option<string>, offset: Option<string>,
                   parseDate: string -> int)
    requires QueryInt(offset, 0).Some? && QueryInt(limit, 50).Some?
    requires 0 <= QueryInt(offset, 0).value && 0 <= QueryInt(limit, 50).value
    ensures var p := ListPage(tasks, status, limit, offset, parseDate);
      var sorted := SortNewestFirst(Matching(tasks, status), CreatedKey(parseDate));
      var o, l := QueryInt(offset, 0).value, QueryInt(limit, 50).value;
      && (o <= |sorted| ==> p.tasks == sorted[o..if o + l < |sorted| then o + l else |sorted|])
      && (o >= |sorted| ==> p.tasks == [])
  {
    var o, l := QueryInt(offset, 0).value, QueryInt(limit, 50).value;
    JsSliceWindow(SortNewestFirst(Matching(tasks, status), CreatedKey(parseDate)), o, o + l);
  }

  /**
   * Whatever the parameters, the listed records are newest first, come
   * from the array and all have the status asked for.
   */
  lemma ListPageOrdered(tasks: seq<HistoryTask>, status: Option<string>, limit: Option<string>, offset: Option<string>,
                        parseDate: string -> int)
    ensures var p := ListPage(tasks, status, limit, offset, parseDate);
      && NewestFirst(p.tasks, CreatedKey(parseDate))
      && multiset(p.tasks) <= multiset(tasks)
      && forall k :: 0 <= k < |p.tasks| ==> Wanted(status)(p.tasks[k])
  {
    var key := CreatedKey(parseDate);
    var filtered := Matching(tasks, status);
    var sorted := SortNewestFirst(filtered, key);
    var l, o := QueryInt(limit, 50), QueryInt(offset, 0);
    var start, end := o.GetOr(0), if o.Some? && l.Some? then o.value + l.value else 0;
    var w := ListPage(tasks, status, limit, offset, parseDate).tasks;
    assert w == JsSlice(sorted, start, end);
    assert NewestFirst(w, key) && multiset(w) <= multiset(tasks) && forall k :: 0 <= k < |w| ==> Wanted(status)(w[k]) by {
      SortOrders(filtered, key);
      MatchingIsWanted(tasks, status);
      PageOfSorted(tasks, filtered, sorted, start, end, key, Wanted(status));
    }
  }

  /**
   * Any `slice` of an ordering of some of `all`'s elements, each satisfying
   * `p`: still ordered, still from `all`, still satisfying `p`.
   */
  lemma PageOfSorted<X>(all: seq<X>, filtered: seq<X>, sorted: seq<X>, start: int, end: int, key: X -> int, p: X -> bool)
    requires multiset(filtered) <= multiset(all) && forall k :: 0 <= k < |filtered| ==> p(filtered[k])
    requires NewestFirst(sorted, key) && multiset(sorted) == multiset(filtered)
    ensures var w := JsSlice(sorted, start, end);
      NewestFirst(w, key) && multiset(w) <= multiset(all) && forall k :: 0 <= k < |w| ==> p(w[k])
  {
    var w := JsSlice(sorted, start, end);
    AllOfPermutation(sorted, filtered, p);
    SliceKeeps(sorted, start, end, key, p);
    SubmultisetTransitive(multiset(w), multiset(sorted), multiset(all));
  }

  lemma SubmultisetTransitive<X>(a: multiset<X>, b: multiset<X>, c: multiset<X>)
    requires a <= b && b <= c
    ensures a <= c
  {
  }

  /** A non-negative `slice` of an ordered sequence whose elements all satisfy `p`. */
  lemma SlicedPage<X>(xs: seq<X>, o: int, l: int, key: X -> int, p: X -> bool)
    requires 0 <= o && 0 <= l
    requires NewestFirst(xs, key) && forall k :: 0 <= k < |xs| ==> p(xs[k])
    ensures var w := JsSlice(xs, o, o + l);
      && (o <= |xs| ==> w == xs[o..if o + l < |xs| then o + l else |xs|])
      && (o >= |xs| ==> w == [])
      && NewestFirst(w, key) && multiset(w) <= multiset(xs)
      && forall k :: 0 <= k < |w| ==> p(w[k])
  {
    JsSliceWindow(xs, o, o + l);
    SliceKeeps(xs, o, o + l, key, p);
  }

  /** Any `slice` of an ordered sequence whose elements all satisfy `p` is ordered, part of it, and satisfies `p`. */
  lemma SliceKeeps<X>(xs: seq<X>, start: int, end: int, key: X -> int, p: X -> bool)
    requires NewestFirst(xs, key) && forall k :: 0 <= k < |xs| ==> p(xs[k])
    ensures var w := JsSlice(xs, start, end);
      NewestFirst(w, key) && multiset(w) <= multiset(xs) && forall k :: 0 <= k < |w| ==> p(w[k])
  {
    var a, b := SliceBound(|xs|, start), SliceBound(|xs|, end);
    if a < b {
      WindowKeeps(xs, a, b, key, p);
    }
  }

  /** The records a status asks for: all of them without one. */
  function Wanted(status: Option<string>): HistoryTask -> bool {
    (t: HistoryTask) => !(status.Some? && status.value != "") || t.status == status.value
  }

  lemma MatchingIsWanted(tasks: seq<HistoryTask>, status: Option<string>)
    ensures multiset(Matching(tasks, status)) <= multiset(tasks)
    ensures forall k :: 0 <= k < |Matching(tasks, status)| ==> Wanted(status)(Matching(tasks, status)[k])
  {
    if status.Some? && status.value != "" {
      FilterProperties(tasks, HasStatus(status.value));
    }
  }

  lemma AllOfPermutation<X>(xs: seq<X>, ys: seq<X>, p: X -> bool)
    requires multiset(xs) == multiset(ys)
    requires forall k :: 0 <= k < |ys| ==> p(ys[k])
    ensures forall k :: 0 <= k < |xs| ==> p(xs[k])
  {
    forall k | 0 <= k < |xs| ensures p(xs[k]) {
      assert xs[k] in multiset(ys);
      var m :| 0 <= m < |ys| && ys[m] == xs[k];
    }
  }

  /** A window of an ordered sequence is ordered, and is part of it. */
  lemma WindowKeeps<X>(xs: seq<X>, a: int, b: int, key: X -> int, p: X -> bool)
    requires 0 <= a <= b <= |xs|
    requires NewestFirst(xs, key) && forall k :: 0 <= k < |xs| ==> p(xs[k])
    ensures NewestFirst(xs[a..b], key) && multiset(xs[a..b]) <= multiset(xs)
    ensures forall k :: 0 <= k < |xs[a..b]| ==> p(xs[a..b][k])
  {
    assert xs == xs[..a] + xs[a..b] + xs[b..];
    var w := xs[a..b];
    forall i, j | 0 <= i < j < |w| ensures key(w[i]) >= key(w[j]) {
      assert w[i] == xs[a + i] && w[j] == xs[a + j];
    }
    forall k | 0 <= k < |w| ensures p(w[k]) {
      assert w[k] == xs[a + k];
    }
  }

  // ---------------------------------------------------------------------
  // The single-record routes, stats and export
  // ---------------------------------------------------------------------

  datatype Reply =
    | Found(task: HistoryTask)
    | Done(message: string)
    | Json(records: seq<HistoryTask>)
    | Csv(text: string)
    | Refused(code: nat, error: string)

  /** `GET /:taskId`. */
  function GetTask(tasks: seq<HistoryTask>, taskId: string): (r: Reply)
    ensures r.Found? <==> exists k :: 0 <= k < |tasks| && tasks[k].id == taskId
    ensures r.Found? ==> r.task.id == taskId && r.task == tasks[FindIndex(tasks, taskId)]
    ensures !r.Found? ==> r == Refused(404, NoSuchTask)
  {
    var i := FindIndex(tasks, taskId);
    if i < 0 then Refused(404, NoSuchTask) else Found(tasks[i])
  }

  datatype Stats = Stats(total: nat, completed: nat, failed: nat, downloading: nat, paused: nat, cancelled: nat)

  /** `GET /stats/summary`: each counter filters by one status; `failed` counts `error`. */
  function StatsOf(tasks: seq<HistoryTask>): (s: Stats)
    ensures s.total == |tasks|
    ensures s.completed == Count(tasks, HasStatus(T.Completed)) && s.failed == Count(tasks, HasStatus(T.Error))
    ensures s.downloading == Count(tasks, HasStatus(T.Downloading)) && s.paused == Count(tasks, HasStatus(T.Paused))
    ensures s.cancelled == Count(tasks, HasStatus(T.Cancelled))
  {
    FilterProperties(tasks, HasStatus(T.Completed));
    FilterProperties(tasks, HasStatus(T.Error));
    FilterProperties(tasks, HasStatus(T.Downloading));
    FilterProperties(tasks, HasStatus(T.Paused));
    FilterProperties(tasks, HasStatus(T.Cancelled));
    Stats(|tasks|, |Filter(tasks, HasStatus(T.Completed))|, |Filter(tasks, HasStatus(T.Error))|,
          |Filter(tasks, HasStatus(T.Downloading))|, |Filter(tasks, HasStatus(T.Paused))|,
          |Filter(tasks, HasStatus(T.Cancelled))|)
  }

  /** A status the summary counts. */
  predicate Summarised(t: HistoryTask) {
    t.status in {T.Completed, T.Error, T.Downloading, T.Paused, T.Cancelled}
  }

  /** The five counters add up to the number of records with one of their statuses. */
  lemma {:induction false} CountersPartition(tasks: seq<HistoryTask>)
    ensures var s := StatsOf(tasks);
      s.completed + s.failed + s.downloading + s.paused + s.cancelled == Count(tasks, Summarised)
  {
    if |tasks| > 0 {
      CountersPartition(tasks[..|tasks| - 1]);
    }
  }

  /**
   * The counters never exceed `total`, and reach it exactly when no record
   * is pending, parsing, merging or partial.
   */
  lemma StatsWithinTotal(tasks: seq<HistoryTask>)
    ensures var s := StatsOf(tasks);
      && s.completed + s.failed + s.downloading + s.paused + s.cancelled <= s.total
      && (s.completed + s.failed + s.downloading + s.paused + s.cancelled == s.total
          <==> forall k :: 0 <= k < |tasks| ==> Summarised(tasks[k]))
  {
    CountersPartition(tasks);
    CountAll(tasks, Summarised);
  }

  /** Count reaches the length exactly when every element passes. */
  lemma {:induction false} CountAll<X>(xs: seq<X>, p: X -> bool)
    ensures Count(xs, p) == |xs| <==> forall k :: 0 <= k < |xs| ==> p(xs[k])
  {
    if |xs| > 0 {
      var front := xs[..|xs| - 1];
      CountAll(front, p);
      assert forall k :: 0 <= k < |front| ==> front[k] == xs[k];
    }
  }

  const CsvHeader: seq<string> := ["ID", "标题", "URL", "状态", "创建时间", "完成时间", "文件大小"]

  /** The row of one record: title and URL in double quotes, unescaped; a missing completion time or size is empty. */
  function CsvCells(t: HistoryTask): (r: seq<string>)
    ensures |r| == |CsvHeader|
    ensures r[1] == "\"" + t.title + "\"" && r[2] == "\"" + t.url + "\""
    ensures r[0] == t.id && r[3] == t.status && r[4] == t.createdAt
    ensures r[5] == (if t.completedAt.Some? then t.completedAt.value else "")
    ensures r[6] == "" <==> t.fileSize == 0
  {
    var size := if t.fileSize == 0 then "" else IntToString(t.fileSize);
    assert t.fileSize != 0 ==> |size| >= 1;
    [t.id, "\"" + t.title + "\"", "\"" + t.url + "\"", t.status, t.createdAt,
     if t.completedAt.Some? then t.completedAt.value else "", size]
  }

  /** One line per record, in array order. */
  function CsvRows(tasks: seq<HistoryTask>): (r: seq<string>)
    ensures |r| == |tasks|
    ensures forall k :: 0 <= k < |tasks| ==> r[k] == Join(CsvCells(tasks[k]), ',')
  {
    if |tasks| == 0 then []
    else CsvRows(tasks[..|tasks| - 1]) + [Join(CsvCells(tasks[|tasks| - 1]), ',')]
  }

  /** The header line, then the rows. */
  function CsvLines(tasks: seq<HistoryTask>): (r: seq<string>)
    ensures |r| == |tasks| + 1 && r[0] == Join(CsvHeader, ',')
    ensures forall k :: 0 <= k < |tasks| ==> r[k + 1] == Join(CsvCells(tasks[k]), ',')
  {
    var rows := CsvRows(tasks);
    var r := [Join(CsvHeader, ',')] + rows;
    assert forall k :: 0 <= k < |rows| ==> r[k + 1] == rows[k];
    r
  }

  /** `GET /export/history?format`: JSON by default, CSV on request, 400 otherwise. */
  function Export(tasks: seq<HistoryTask>, format: Option<string>): (r: Reply)
    ensures format.None? || format.value == "json" ==> r == Json(tasks)
    ensures format == Some("csv") ==> r == Csv(Join(CsvLines(tasks), '\n'))
    ensures r.Refused? <==> format.Some? && format.value != "json" && format.value != "csv"
  {
    var f := format.GetOr("json");
    if f == "json" then Json(tasks)
    else if f == "csv" then Csv(Join(CsvLines(tasks), '\n'))
    else Refused(400, UnsupportedFormat)
  }

  /** No text field of the record holds `c`. */
  predicate FieldsAvoid(t: HistoryTask, c: char) {
    && (forall j :: 0 <= j < |t.id| ==> t.id[j] != c)
    && (forall j :: 0 <= j < |t.title| ==> t.title[j] != c)
    && (forall j :: 0 <= j < |t.url| ==> t.url[j] != c)
    && (forall j :: 0 <= j < |t.status| ==> t.status[j] != c)
    && (forall j :: 0 <= j < |t.createdAt| ==> t.createdAt[j] != c)
    && (t.completedAt.Some? ==> forall j :: 0 <= j < |t.completedAt.value| ==> t.completedAt.value[j] != c)
  }

  lemma NumberHasNoSeparator(n: int, c: char)
    requires c == ',' || c == '\n'
    ensures forall j :: 0 <= j < |IntToString(n)| ==> IntToString(n)[j] != c
  {
    var s := NatToString(if n < 0 then -n else n);
    assert AllDigits(s);
    assert forall j :: 0 <= j < |s| ==> IsDigit(s[j]);
  }

  /** No cell of the row holds `c` when no field does. */
  lemma CellsAvoid(t: HistoryTask, c: char)
    requires c == ',' || c == '\n'
    requires FieldsAvoid(t, c)
    ensures forall k, j :: 0 <= k < |CsvCells(t)| && 0 <= j < |CsvCells(t)[k]| ==> CsvCells(t)[k][j] != c
  {
    NumberHasNoSeparator(t.fileSize, c);
    var cells := CsvCells(t);
    forall k, j | 0 <= k < |cells| && 0 <= j < |cells[k]| ensures cells[k][j] != c {
      if k == 1 && 0 < j < |cells[k]| - 1 {
        assert cells[k][j] == t.title[j - 1];
      } else if k == 2 && 0 < j < |cells[k]| - 1 {
        assert cells[k][j] == t.url[j - 1];
      }
    }
  }

  /**
   * When no field holds a comma or a line break, the export reads back as
   * the header line and then one line per record in array order, each
   * splitting into that record's seven cells.
   */
  lemma CsvReadsBack(tasks: seq<HistoryTask>)
    requires forall k :: 0 <= k < |tasks| ==> FieldsAvoid(tasks[k], ',') && FieldsAvoid(tasks[k], '\n')
    ensures Split(Join(CsvLines(tasks), '\n'), '\n') == CsvLines(tasks)
    ensures forall k :: 0 <= k < |tasks| ==> Split(CsvLines(tasks)[k + 1], ',') == CsvCells(tasks[k])
    ensures Split(CsvLines(tasks)[0], ',') == CsvHeader
  {
    var lines := CsvLines(tasks);
    forall k | 0 <= k < |tasks| ensures Split(lines[k + 1], ',') == CsvCells(tasks[k]) {
      RowReadsBack(tasks[k]);
    }
    assert Split(lines[0], ',') == CsvHeader by {
      HeaderAvoids(',');
      SplitJoin(CsvHeader, ',');
    }
    assert forall k, j :: 0 <= k < |lines| && 0 <= j < |lines[k]| ==> lines[k][j] != '\n' by {
      forall k, j | 0 <= k < |lines| && 0 <= j < |lines[k]| ensures lines[k][j] != '\n' {
        LineAvoidsBreak(tasks, k, j);
      }
    }
    SplitJoin(lines, '\n');
  }

  /** One record's line splits back into its cells. */
  lemma RowReadsBack(t: HistoryTask)
    requires FieldsAvoid(t, ',')
    ensures Split(Join(CsvCells(t), ','), ',') == CsvCells(t)
  {
    CellsAvoid(t, ',');
    SplitJoin(CsvCells(t), ',');
  }

  /** No line of the export holds a line break. */
  lemma LineAvoidsBreak(tasks: seq<HistoryTask>, k: nat, j: nat)
    requires forall k :: 0 <= k < |tasks| ==> FieldsAvoid(tasks[k], '\n')
    requires k < |CsvLines(tasks)| && j < |CsvLines(tasks)[k]|
    ensures CsvLines(tasks)[k][j] != '\n'
  {
    if k > 0 {
      CellsAvoid(tasks[k - 1], '\n');
      JoinAvoids(CsvCells(tasks[k - 1]), ',', '\n');
    } else {
      HeaderAvoids('\n');
      JoinAvoids(CsvHeader, ',', '\n');
    }
  }

  lemma HeaderAvoids(c: char)
    requires c == ',' || c == '\n'
    ensures forall k, j :: 0 <= k < |CsvHeader| && 0 <= j < |CsvHeader[k]| ==> CsvHeader[k][j] != c
  {
    forall k, j | 0 <= k < |CsvHeader| && 0 <= j < |CsvHeader[k]| ensures CsvHeader[k][j] != c {
      if k == 0 { assert CsvHeader[k] == ['I', 'D']; }
      else if k == 1 { assert CsvHeader[k] == ['标', '题']; }
      else if k == 2 { assert CsvHeader[k] == ['U', 'R', 'L']; }
      else if k == 3 { assert CsvHeader[k] == ['状', '态']; }
      else if k == 4 { assert CsvHeader[k] == ['创', '建', '时', '间']; }
      else if k == 5 { assert CsvHeader[k] == ['完', '成', '时', '间']; }
      else { assert CsvHeader[k] == ['文', '件', '大', '小']; }
    }
  }

  /** A join holds `c` only if a piece does (for `c` other than the separator). */
  lemma {:induction false} JoinAvoids(parts: seq<string>, d: char, c: char)
    requires c != d
    requires forall k, j :: 0 <= k < |parts| && 0 <= j < |parts[k]| ==> parts[k][j] != c
    ensures forall j :: 0 <= j < |Join(parts, d)| ==> Join(parts, d)[j] != c
  {
    if |parts| > 1 {
      JoinAvoids(parts[1..], d, c);
      var s := Join(parts, d);
      assert s == parts[0] + [d] + Join(parts[1..], d);
      forall j | 0 <= j < |s| ensures s[j] != c {
        if j > |parts[0]| {
          assert s[j] == Join(parts[1..], d)[j - |parts[0]| - 1];
        }
      }
    }
  }

  // ---------------------------------------------------------------------
  // The array and the routes that change it
  // ---------------------------------------------------------------------

  /** The record `addTaskToHistory` builds from a task object. */
  function Snapshot(task: T.TaskState, nowIso: string): (h: HistoryTask)
    ensures h.id == task.id && h.status == task.status && h.createdAt == nowIso
    ensures h.completedAt == (if task.status == T.Completed then Some(nowIso) else None)
  {
    HistoryTask(task.id, task.title, task.url, task.status, nowIso,
                if task.status == T.Completed then Some(nowIso) else None,
                task.totalSegments, task.downloadedSegments, task.fileSize, task.error)
  }

  /** Replace the record with the same id in place, else append. */
  function Upsert(tasks: seq<HistoryTask>, h: HistoryTask): seq<HistoryTask> {
    var i := FindIndex(tasks, h.id);
    if i > -1 then tasks[i := h] else tasks + [h]
  }

  /** The fields `Object.assign` copies in; an absent field is left as it is. */
  datatype Updates = Updates(
    id: Option<string>,
    title: Option<string>,
    url: Option<string>,
    status: Option<string>,
    createdAt: Option<string>,
    completedAt: Option<Option<string>>,
    totalSegments: Option<int>,
    downloadedSegments: Option<int>,
    fileSize: Option<int>,
    error: Option<Option<string>>)

  /** `Object.assign(record, updates)`, then the completion time when the new status is `completed`. */
  function Merged(h: HistoryTask, u: Updates, nowIso: string): HistoryTask {
    var m := HistoryTask(u.id.GetOr(h.id), u.title.GetOr(h.title), u.url.GetOr(h.url), u.status.GetOr(h.status),
                         u.createdAt.GetOr(h.createdAt), u.completedAt.GetOr(h.completedAt),
                         u.totalSegments.GetOr(h.totalSegments), u.downloadedSegments.GetOr(h.downloadedSegments),
                         u.fileSize.GetOr(h.fileSize), u.error.GetOr(h.error));
    if u.status == Some(T.Completed) then m.(completedAt := Some(nowIso)) else m
  }

  function UpdateSpec(tasks: seq<HistoryTask>, taskId: string, u: Updates, nowIso: string): seq<HistoryTask> {
    var i := FindIndex(tasks, taskId);
    if i > -1 then tasks[i := Merged(tasks[i], u, nowIso)] else tasks
  }

  /** `splice(indexOf(x), 1)` when `x` is present. */
  function RemoveFirst<X(==)>(xs: seq<X>, x: X): (r: seq<X>)
    ensures |r| == (if x in xs then |xs| - 1 else |xs|)
    ensures x !in xs ==> r == xs
  {
    if |xs| == 0 then []
    else if xs[0] == x then xs[1..]
    else [xs[0]] + RemoveFirst(xs[1..], x)
  }

  /** The first occurrences of `rs`, one after another, taken out of `xs`. */
  function RemoveEach<X(==)>(xs: seq<X>, rs: seq<X>): seq<X>
    decreases |rs|
  {
    if |rs| == 0 then xs else RemoveEach(RemoveFirst(xs, rs[0]), rs[1..])
  }

  /** `indexOf(x)`: the first position of `x`, or -1. */
  function IndexOfValue<X(==)>(xs: seq<X>, x: X): (r: int)
    ensures -1 <= r < |xs|
    ensures r >= 0 ==> xs[r] == x && x !in xs[..r]
    ensures r < 0 <==> x !in xs
  {
    if |xs| == 0 then -1
    else if xs[0] == x then 0
    else
      var k := IndexOfValue(xs[1..], x);
      if k < 0 then -1
      else
        assert xs[..k + 1] == [xs[0]] + xs[1..][..k];
        k + 1
  }

  /** Splicing at the first position of `x` is removing its first occurrence. */
  lemma {:induction false} SpliceAtIndexOf<X>(xs: seq<X>, x: X)
    requires x in xs
    ensures var i := IndexOfValue(xs, x); RemoveFirst(xs, x) == xs[..i] + xs[i + 1..]
  {
    if xs[0] != x {
      var ys := xs[1..];
      var k := IndexOfValue(ys, x);
      assert IndexOfValue(xs, x) == k + 1;
      assert RemoveFirst(ys, x) == ys[..k] + ys[k + 1..] by {
        SpliceAtIndexOf(ys, x);
      }
      assert RemoveFirst(xs, x) == [xs[0]] + RemoveFirst(ys, x);
      ConsSplice(xs, k);
    }
  }

  /** Cutting one element out of the tail, with the head put back. */
  lemma ConsSplice<X>(xs: seq<X>, k: nat)
    requires k + 1 < |xs|
    ensures [xs[0]] + (xs[1..][..k] + xs[1..][k + 1..]) == xs[..k + 1] + xs[k + 2..]
  {
    assert xs[..k + 1] == [xs[0]] + xs[1..][..k];
    assert xs[k + 2..] == xs[1..][k + 1..];
  }

  /** The loop of `clear/all`: each of `rs` in turn spliced out at its first position, if any. */
  method RemoveInTurn<X(==)>(xs: seq<X>, rs: seq<X>) returns (history: seq<X>)
    ensures history == RemoveEach(xs, rs)
  {
    history := xs;
    for k := 0 to |rs|
      invariant RemoveEach(history, rs[k..]) == RemoveEach(xs, rs)
    {
      var index := IndexOfValue(history, rs[k]);
      RemoveStep(history, rs, k);
      if index > -1 {
        history := history[..index] + history[index + 1..];
      }
    }
  }

  /** One turn of the clearing loop: splicing at `indexOf`, when found, takes out the next one. */
  lemma RemoveStep<X>(xs: seq<X>, rs: seq<X>, k: nat)
    requires k < |rs|
    ensures var i := IndexOfValue(xs, rs[k]);
      RemoveEach(if i > -1 then xs[..i] + xs[i + 1..] else xs, rs[k + 1..]) == RemoveEach(xs, rs[k..])
  {
    assert rs[k..][1..] == rs[k + 1..];
    if rs[k] in xs {
      SpliceAtIndexOf(xs, rs[k]);
    }
  }

  /** A leading element that is none of `rs` stays in front. */
  lemma {:induction false} RemoveEachPastHead<X>(x: X, ys: seq<X>, rs: seq<X>)
    requires x !in rs
    ensures RemoveEach([x] + ys, rs) == [x] + RemoveEach(ys, rs)
    decreases |rs|
  {
    if |rs| > 0 {
      assert ([x] + ys)[1..] == ys;
      assert RemoveFirst([x] + ys, rs[0]) == [x] + RemoveFirst(ys, rs[0]);
      RemoveEachPastHead(x, RemoveFirst(ys, rs[0]), rs[1..]);
    }
  }

  /** `Filter` unfolded from the front. */
  lemma FilterCons<X>(x: X, ys: seq<X>, p: X -> bool)
    ensures Filter([x] + ys, p) == (if p(x) then [x] else []) + Filter(ys, p)
  {
    FilterAppend([x], ys, p);
    assert [x][..0] == [];
  }

  /** Taking the records of a status out one by one leaves exactly the others, in order. */
  lemma {:induction false} RemoveMatchesLeavesOthers(xs: seq<HistoryTask>, s: string)
    ensures RemoveEach(xs, Filter(xs, HasStatus(s))) == Filter(xs, LacksStatus(s))
  {
    if |xs| > 0 {
      var x := xs[0];
      var ys := xs[1..];
      assert xs == [x] + ys;
      FilterCons(x, ys, HasStatus(s));
      FilterCons(x, ys, LacksStatus(s));
      RemoveMatchesLeavesOthers(ys, s);
      if x.status == s {
        assert Filter(xs, HasStatus(s)) == [x] + Filter(ys, HasStatus(s));
        assert ([x] + Filter(ys, HasStatus(s)))[1..] == Filter(ys, HasStatus(s));
      } else {
        var rs := Filter(ys, HasStatus(s));
        FilterProperties(ys, HasStatus(s));
        assert x !in rs;
        assert Filter(xs, HasStatus(s)) == rs;
        assert Filter(xs, LacksStatus(s)) == [x] + Filter(ys, LacksStatus(s));
        RemoveEachPastHead(x, ys, rs);
      }
    }
  }

  class TaskHistory {
    var tasks: seq<HistoryTask>

    constructor ()
      ensures tasks == []
    {
      tasks := [];
    }

    /** `DELETE /:taskId`: the first record with the id goes; the others keep their order. */
    method Delete(taskId: string) returns (r: Reply)
      modifies this
      ensures FindIndex(old(tasks), taskId) < 0 ==> r == Refused(404, NoSuchTask) && tasks == old(tasks)
      ensures FindIndex(old(tasks), taskId) >= 0 ==>
        var i := FindIndex(old(tasks), taskId);
        r == Done(TaskDeleted) && tasks == old(tasks)[..i] + old(tasks)[i + 1..]
    {
      var taskIndex := FindIndex(tasks, taskId);
      if taskIndex == -1 {
        return Refused(404, NoSuchTask);
      }
      tasks := tasks[..taskIndex] + tasks[taskIndex + 1..];
      return Done(TaskDeleted);
    }

    /**
     * `DELETE /clear/all?status`: with a status, each record of it is taken
     * out in turn; without one, the array is emptied.
     */
    method Clear(status: Option<string>) returns (r: Reply)
      modifies this
      ensures r == Done(HistoryCleared)
      ensures status.Some? && status.value != "" ==> tasks == Filter(old(tasks), LacksStatus(status.value))
      ensures status.None? || status.value == "" ==> tasks == []
    {
      if status.Some? && status.value != "" {
        var tasksToRemove := Filter(tasks, HasStatus(status.value));
        RemoveMatchesLeavesOthers(tasks, status.value);
        tasks := RemoveInTurn(tasks, tasksToRemove);
      } else {
        tasks := [];
      }
      return Done(HistoryCleared);
    }

    /** `addTaskToHistory`. */
    method AddTaskToHistory(task: T.TaskState, nowIso: string)
      modifies this
      ensures tasks == Upsert(old(tasks), Snapshot(task, nowIso))
    {
      var historyTask := Snapshot(task, nowIso);
      var existingIndex := FindIndex(tasks, task.id);
      if existingIndex > -1 {
        tasks := tasks[existingIndex := historyTask];
      } else {
        tasks := tasks + [historyTask];
      }
    }

    /** `updateTaskHistory`. */
    method UpdateTaskHistory(taskId: string, updates: Updates, nowIso: string)
      modifies this
      ensures tasks == UpdateSpec(old(tasks), taskId, updates, nowIso)
    {
      var taskIndex := FindIndex(tasks, taskId);
      if taskIndex > -1 {
        tasks := tasks[taskIndex := Merged(tasks[taskIndex], updates, nowIso)];
      }
    }
  }

  // ---------------------------------------------------------------------
  // Properties of the changes
  // ---------------------------------------------------------------------

  /**
   * Deleting takes out one record, the first with the id; with unique ids
   * no record with the id remains and the rest are untouched.
   */
  lemma DeleteTakesFirst(tasks: seq<HistoryTask>, taskId: string)
    requires FindIndex(tasks, taskId) >= 0
    ensures var i := FindIndex(tasks, taskId);
      var r := tasks[..i] + tasks[i + 1..];
      && |r| == |tasks| - 1
      && tasks[i].id == taskId
      && multiset(r) + multiset{tasks[i]} == multiset(tasks)
  {
    RemoveAt(tasks, FindIndex(tasks, taskId));
  }

  /** With unique ids, no record with the deleted id remains and the others keep unique ids. */
  lemma DeleteLeavesNoneWithId(tasks: seq<HistoryTask>, taskId: string)
    requires FindIndex(tasks, taskId) >= 0 && UniqueIds(tasks)
    ensures var i := FindIndex(tasks, taskId);
      var r := tasks[..i] + tasks[i + 1..];
      UniqueIds(r) && forall k :: 0 <= k < |r| ==> r[k].id != taskId
  {
    RemoveUnique(tasks, FindIndex(tasks, taskId));
  }

  /** Taking out the record at `i` of an array with unique ids: the rest keep unique ids, none with the id at `i`. */
  lemma RemoveUnique(tasks: seq<HistoryTask>, i: nat)
    requires i < |tasks| && UniqueIds(tasks)
    ensures var r := tasks[..i] + tasks[i + 1..];
      UniqueIds(r) && forall k :: 0 <= k < |r| ==> r[k].id != tasks[i].id
  {
    var r := tasks[..i] + tasks[i + 1..];
    assert forall k :: 0 <= k < |r| ==> r[k] == (if k < i then tasks[k] else tasks[k + 1]);
  }

  /**
   * The upsert keeps ids unique, grows the array by at most one, puts the
   * record at the old position of its id (or at the end) and leaves every
   * other record where it was.
   */
  lemma UpsertKeepsIdsUnique(tasks: seq<HistoryTask>, h: HistoryTask)
    requires UniqueIds(tasks)
    ensures var r := Upsert(tasks, h);
      && UniqueIds(r)
      && |tasks| <= |r| <= |tasks| + 1
      && h in r
      && (forall k :: 0 <= k < |tasks| && tasks[k].id != h.id ==> r[k] == tasks[k])
      && ((exists k :: 0 <= k < |tasks| && tasks[k].id == h.id) <==> |r| == |tasks|)
  {
    var i := FindIndex(tasks, h.id);
    if i < 0 {
      assert Upsert(tasks, h)[|tasks|] == h;
    } else {
      assert Upsert(tasks, h)[i] == h;
    }
  }

  /**
   * An update changes only the first record with the id, sets its
   * completion time exactly when the new status is `completed`, and is a
   * no-op for a missing id.
   */
  lemma UpdateChangesOne(tasks: seq<HistoryTask>, taskId: string, u: Updates, nowIso: string)
    ensures var r := UpdateSpec(tasks, taskId, u, nowIso);
      var i := FindIndex(tasks, taskId);
      && |r| == |tasks|
      && (i < 0 ==> r == tasks)
      && (i >= 0 ==> forall k :: 0 <= k < |tasks| && k != i ==> r[k] == tasks[k])
      && (i >= 0 && u.status == Some(T.Completed) ==> r[i].completedAt == Some(nowIso) && r[i].status == T.Completed)
      && (i >= 0 && u.status != Some(T.Completed) ==> r[i].completedAt == u.completedAt.GetOr(tasks[i].completedAt))
  {
  }

  /** An update that does not set the id keeps ids unique. */
  lemma UpdateKeepsIdsUnique(tasks: seq<HistoryTask>, taskId: string, u: Updates, nowIso: string)
    requires UniqueIds(tasks) && u.id.None?
    ensures UniqueIds(UpdateSpec(tasks, taskId, u, nowIso))
  {
  }

  /** Clearing a status leaves no record of it and keeps the count of every other record. */
  lemma ClearLeavesNoneOfStatus(tasks: seq<HistoryTask>, s: string)
    ensures var r := Filter(tasks, LacksStatus(s));
      && (forall k :: 0 <= k < |r| ==> r[k].status != s)
      && |r| == |tasks| - Count(tasks, HasStatus(s))
  {
    FilterProperties(tasks, LacksStatus(s));
    CountComplement(tasks, s);
  }

  lemma {:induction false} CountComplement(tasks: seq<HistoryTask>, s: string)
    ensures Count(tasks, LacksStatus(s)) + Count(tasks, HasStatus(s)) == |tasks|
  {
    if |tasks| > 0 {
      CountComplement(tasks[..|tasks| - 1], s);
    }
  }
}
