/**
 * String helpers shared by the Python and the JavaScript parts of the model:
 * prefix and substring tests, first/last occurrence, splitting on one
 * character, the two languages' notions of white space, and decimal text.
 * Strings are sequences of Unicode scalar values.
 */
module Text {
  import opened Wrappers

  predicate StartsWith(s: string, p: string) {
    |p| <= |s| && s[..|p|] == p
  }

  predicate EndsWith(s: string, p: string) {
    |p| <= |s| && s[|s| - |p|..] == p
  }

  predicate OccursAt(s: string, p: string, i: nat) {
    i + |p| <= |s| && s[i..i + |p|] == p
  }

  /** The first position at or after `from` where `p` occurs in `s`. */
  function FindFrom(s: string, p: string, from: nat): (r: Option<nat>)
    ensures r.Some? ==> from <= r.value && OccursAt(s, p, r.value)
    ensures forall j: nat :: from <= j && (r.None? || j < r.value) ==> !OccursAt(s, p, j)
    decreases |s| - from
  {
    if from + |p| > |s| then None
    else if s[from..from + |p|] == p then Some(from)
    else FindFrom(s, p, from + 1)
  }

  function IndexOf(s: string, p: string): Option<nat> {
    FindFrom(s, p, 0)
  }

  /** `p in s` (Python) and `s.includes(p)` (JavaScript). */
  predicate Contains(s: string, p: string) {
    IndexOf(s, p).Some?
  }

  lemma ContainsWhenOccurs(s: string, p: string, i: nat)
    requires OccursAt(s, p, i)
    ensures Contains(s, p)
  {
  }

  /** First index of `c`, or -1. */
  function IndexOfChar(s: string, c: char): (r: int)
    ensures -1 <= r < |s|
    ensures r >= 0 ==> s[r] == c
    ensures forall j :: 0 <= j < |s| && (r < 0 || j < r) ==> s[j] != c
  {
    if |s| == 0 then -1
    else if s[0] == c then 0
    else
      var k := IndexOfChar(s[1..], c);
      if k < 0 then -1 else k + 1
  }

  /** Last index of `c` (`rfind`, `lastIndexOf`), or -1. */
  function LastIndexOfChar(s: string, c: char): (r: int)
    ensures -1 <= r < |s|
    ensures r >= 0 ==> s[r] == c
    ensures forall j :: r < j < |s| ==> s[j] != c
  {
    if |s| == 0 then -1
    else if s[|s| - 1] == c then |s| - 1
    else LastIndexOfChar(s[..|s| - 1], c)
  }

  /** The position characterised by LastIndexOfChar's contract is unique. */
  lemma LastIndexOfCharIs(s: string, c: char, r: nat)
    requires r < |s| && s[r] == c
    requires forall j :: r < j < |s| ==> s[j] != c
    ensures LastIndexOfChar(s, c) == r
  {
  }

  /** `s.split(d)` for a one-character separator (Python and JavaScript agree). */
  function Split(s: string, d: char): (r: seq<string>)
    ensures |r| >= 1
    decreases |s|
  {
    var i := IndexOfChar(s, d);
    if i < 0 then [s] else [s[..i]] + Split(s[i + 1..], d)
  }

  /** `d.join(parts)`. */
  function Join(parts: seq<string>, d: char): string {
    if |parts| == 0 then ""
    else if |parts| == 1 then parts[0]
    else parts[0] + [d] + Join(parts[1..], d)
  }

  lemma {:induction false} JoinSplit(s: string, d: char)
    ensures Join(Split(s, d), d) == s
    decreases |s|
  {
    var i := IndexOfChar(s, d);
    if i >= 0 {
      JoinSplit(s[i + 1..], d);
      SplitAt(s, d, i);
      JoinCons(s[..i], Split(s[i + 1..], d), d);
      AroundSeparator(s, i);
    }
  }

  /** Splitting at the first separator: the text before it, then the split of the rest. */
  lemma SplitAt(s: string, d: char, i: nat)
    requires i == IndexOfChar(s, d)
    ensures i < |s| && s[i] == d
    ensures Split(s, d) == [s[..i]] + Split(s[i + 1..], d)
  {
  }

  /** A text is what comes before position `i`, the character there, and what comes after. */
  lemma AroundSeparator(s: string, i: nat)
    requires i < |s|
    ensures s == s[..i] + [s[i]] + s[i + 1..]
  {
  }

  /** Splitting a join gives the pieces back when none of them holds the separator. */
  lemma {:induction false} SplitJoin(parts: seq<string>, d: char)
    requires |parts| >= 1
    requires forall k, j :: 0 <= k < |parts| && 0 <= j < |parts[k]| ==> parts[k][j] != d
    ensures Split(Join(parts, d), d) == parts
    decreases |parts|
  {
    assert NoSeparatorIn(parts[0], d) by {
      forall j | 0 <= j < |parts[0]| ensures parts[0][j] != d {
        assert parts[0][j] != d;
      }
    }
    if |parts| == 1 {
      assert IndexOfChar(parts[0], d) < 0;
    } else {
      var rest := parts[1..];
      var s := Join(parts, d);
      assert Split(Join(rest, d), d) == rest by {
        SplitJoin(rest, d);
      }
      assert s == parts[0] + [d] + Join(rest, d);
      FirstSeparatorAfterHead(s, parts[0], Join(rest, d), d);
      SplitAt(s, d, |parts[0]|);
      assert parts == [parts[0]] + rest;
    }
  }

  /** Where `s` is `head + [d] + rest` and `head` holds no `d`, that `d` is the first one. */
  lemma FirstSeparatorAfterHead(s: string, head: string, rest: string, d: char)
    requires s == head + [d] + rest && NoSeparatorIn(head, d)
    ensures IndexOfChar(s, d) == |head|
    ensures s[..|head|] == head && s[|head| + 1..] == rest
  {
    assert s[|head|] == d;
    assert forall j :: 0 <= j < |head| ==> s[j] == head[j];
  }

  /**
   * Joining all pieces but the last gives the text before the last
   * separator, or "" when there is none.
   */
  lemma JoinSplitDropLast(s: string, d: char)
    ensures var parts := Split(s, d);
      var k := LastIndexOfChar(s, d);
      Join(parts[..|parts| - 1], d) == (if k < 0 then "" else s[..k])
  {
    SplitAroundLast(s, d);
  }

  /** The last piece of a split is what follows the last separator (all of `s` when there is none). */
  lemma SplitLast(s: string, d: char)
    ensures var parts := Split(s, d); parts[|parts| - 1] == s[LastIndexOfChar(s, d) + 1..]
  {
    SplitAroundLast(s, d);
  }

  /** A text without the separator: no separator to join at, and no last one. */
  predicate NoSeparatorIn(s: string, d: char) {
    forall j :: 0 <= j < |s| ==> s[j] != d
  }

  /**
   * With a separator in `s`, the split is the pieces before the last one
   * and the last piece; `s` is their join, the separator, and the last piece.
   */
  lemma SplitAroundLast(s: string, d: char)
    ensures var parts := Split(s, d);
      var k := LastIndexOfChar(s, d);
      && (k < 0 ==> parts == [s])
      && (k >= 0 ==> |parts| >= 2 && parts[|parts| - 1] == s[k + 1..] && Join(parts[..|parts| - 1], d) == s[..k])
  {
    if IndexOfChar(s, d) < 0 {
      NoSeparator(s, d);
    } else {
      var parts := Split(s, d);
      SplitWithSeparator(s, d);
      SeparatorBeforeTail(s, Join(parts[..|parts| - 1], d), parts[|parts| - 1], d);
    }
  }

  /** A split at a separator has a last piece without one, after the join of the others and a separator. */
  lemma SplitWithSeparator(s: string, d: char)
    requires IndexOfChar(s, d) >= 0
    ensures var parts := Split(s, d);
      && |parts| >= 2
      && s == Join(parts[..|parts| - 1], d) + [d] + parts[|parts| - 1]
      && NoSeparatorIn(parts[|parts| - 1], d)
  {
    var parts := Split(s, d);
    assert |parts| >= 2 by { SplitAt(s, d, IndexOfChar(s, d)); }
    assert Join(parts, d) == s by { JoinSplit(s, d); }
    JoinFrontLast(parts, d);
    SplitLastClean(s, d);
  }

  /** A join of two or more pieces: the join of all but the last, the separator, the last. */
  lemma JoinFrontLast(parts: seq<string>, d: char)
    requires |parts| >= 2
    ensures Join(parts, d) == Join(parts[..|parts| - 1], d) + [d] + parts[|parts| - 1]
  {
    var front := parts[..|parts| - 1];
    assert parts == front + [parts[|parts| - 1]];
    JoinSnoc(front, parts[|parts| - 1], d);
  }

  /** Where `s` is `head + [d] + last` and `last` holds no `d`, that `d` is the last one. */
  lemma SeparatorBeforeTail(s: string, head: string, last: string, d: char)
    requires s == head + [d] + last && NoSeparatorIn(last, d)
    ensures LastIndexOfChar(s, d) == |head|
    ensures s[|head| + 1..] == last && s[..|head|] == head
  {
    var k := |head|;
    assert s[k] == d;
    forall j | k < j < |s| ensures s[j] != d {
      assert s[j] == last[j - k - 1];
    }
    LastIndexOfCharIs(s, d, k);
  }

  /** The last piece of a split holds no separator. */
  lemma {:induction false} SplitLastClean(s: string, d: char)
    ensures var parts := Split(s, d); NoSeparatorIn(parts[|parts| - 1], d)
    decreases |s|
  {
    var i := IndexOfChar(s, d);
    if i < 0 {
      NoSeparator(s, d);
    } else {
      var rest := Split(s[i + 1..], d);
      SplitLastClean(s[i + 1..], d);
      SplitAt(s, d, i);
      assert Split(s, d)[|Split(s, d)| - 1] == rest[|rest| - 1];
    }
  }

  /** Joining with one more piece at the end: the old join, the separator, the piece. */
  lemma {:induction false} JoinSnoc(front: seq<string>, last: string, d: char)
    requires |front| >= 1
    ensures Join(front + [last], d) == Join(front, d) + [d] + last
    decreases |front|
  {
    if |front| == 1 {
      assert front + [last] == [front[0], last];
      assert Join([last], d) == last;
    } else {
      var tail := front[1..];
      assert front + [last] == [front[0]] + (tail + [last]);
      JoinCons(front[0], tail + [last], d);
      JoinSnoc(tail, last, d);
      JoinCons(front[0], tail, d);
      assert [front[0]] + tail == front;
    }
  }

  lemma JoinCons(p: string, front: seq<string>, d: char)
    requires |front| >= 1
    ensures Join([p] + front, d) == p + [d] + Join(front, d)
  {
    assert ([p] + front)[1..] == front;
  }

  lemma NoSeparator(s: string, d: char)
    requires IndexOfChar(s, d) < 0
    ensures Split(s, d) == [s] && LastIndexOfChar(s, d) == -1
  {
  }

  /** Python `str.isspace` for one character. */
  predicate IsPySpace(c: char) {
    || '\t' <= c <= '\r'
    || '\U{1C}' <= c <= ' '
    || c == '\U{85}' || c == '\U{A0}' || c == '\U{1680}'
    || '\U{2000}' <= c <= '\U{200A}'
    || c == '\U{2028}' || c == '\U{2029}' || c == '\U{202F}' || c == '\U{205F}' || c == '\U{3000}'
  }

  /** ECMAScript WhiteSpace or LineTerminator (what `trim` and `\s` use). */
  predicate IsJsSpace(c: char) {
    || '\t' <= c <= '\r'
    || c == ' '
    || c == '\U{A0}' || c == '\U{1680}'
    || '\U{2000}' <= c <= '\U{200A}'
    || c == '\U{2028}' || c == '\U{2029}' || c == '\U{202F}' || c == '\U{205F}' || c == '\U{3000}'
    || c == '\U{FEFF}'
  }

  /** Drops the leading characters that satisfy `sp`. */
  function TrimStart(s: string, sp: char -> bool): string {
    if |s| > 0 && sp(s[0]) then TrimStart(s[1..], sp) else s
  }

  /** Drops the trailing characters that satisfy `sp`. */
  function TrimEnd(s: string, sp: char -> bool): string {
    if |s| > 0 && sp(s[|s| - 1]) then TrimEnd(s[..|s| - 1], sp) else s
  }

  /** TrimStart leaves the longest suffix that does not start with a trimmed character. */
  lemma {:induction false} TrimStartIsSuffix(s: string, sp: char -> bool)
    ensures |TrimStart(s, sp)| <= |s| && TrimStart(s, sp) == s[|s| - |TrimStart(s, sp)|..]
    ensures |TrimStart(s, sp)| == 0 || !sp(TrimStart(s, sp)[0])
    ensures forall k :: 0 <= k < |s| - |TrimStart(s, sp)| ==> sp(s[k])
  {
    if |s| > 0 && sp(s[0]) {
      TrimStartIsSuffix(s[1..], sp);
    }
  }

  /** TrimEnd leaves the longest prefix that does not end with a trimmed character. */
  lemma {:induction false} TrimEndIsPrefix(s: string, sp: char -> bool)
    ensures |TrimEnd(s, sp)| <= |s| && TrimEnd(s, sp) == s[..|TrimEnd(s, sp)|]
    ensures |TrimEnd(s, sp)| == 0 || !sp(TrimEnd(s, sp)[|TrimEnd(s, sp)| - 1])
    ensures forall k :: |TrimEnd(s, sp)| <= k < |s| ==> sp(s[k])
  {
    if |s| > 0 && sp(s[|s| - 1]) {
      TrimEndIsPrefix(s[..|s| - 1], sp);
    }
  }

  /** Nothing is trimmed from text none of whose characters satisfies `sp`. */
  lemma {:induction false} TrimNothing(s: string, sp: char -> bool)
    requires forall k :: 0 <= k < |s| ==> !sp(s[k])
    ensures TrimStart(s, sp) == s && TrimEnd(s, sp) == s
  {
  }

  /** Python `s.strip()`. */
  function PyStrip(s: string): string {
    TrimEnd(TrimStart(s, IsPySpace), IsPySpace)
  }

  /** JavaScript `s.trim()`. */
  function JsTrim(s: string): string {
    TrimEnd(TrimStart(s, IsJsSpace), IsJsSpace)
  }

  predicate IsDigit(c: char) {
    '0' <= c <= '9'
  }

  predicate AllDigits(s: string) {
    forall k :: 0 <= k < |s| ==> IsDigit(s[k])
  }

  function DigitChar(d: nat): char
    requires d < 10
  {
    ('0' as int + d) as char
  }

  /** Decimal text of a natural number, no leading zeros. */
  function NatToString(n: nat): (r: string)
    ensures |r| >= 1 && AllDigits(r)
  {
    if n < 10 then [DigitChar(n)] else NatToString(n / 10) + [DigitChar(n % 10)]
  }

  /** JavaScript and Python decimal text of an integer. */
  function IntToString(i: int): string {
    if i < 0 then "-" + NatToString(-i) else NatToString(i)
  }

  /** The number a string of decimal digits denotes. */
  function DigitsValue(s: string): nat
    requires AllDigits(s)
  {
    if |s| == 0 then 0 else DigitsValue(s[..|s| - 1]) * 10 + (s[|s| - 1] as int - '0' as int)
  }

  lemma {:induction false} DigitsValueOfNatToString(n: nat)
    ensures DigitsValue(NatToString(n)) == n
  {
    if n >= 10 {
      var r := NatToString(n);
      assert r[..|r| - 1] == NatToString(n / 10);
      DigitsValueOfNatToString(n / 10);
    }
  }

  function Repeat(c: char, k: nat): (r: string)
    ensures |r| == k && forall j :: 0 <= j < k ==> r[j] == c
  {
    if k == 0 then "" else [c] + Repeat(c, k - 1)
  }

  /** Leading zeros do not change the value of a digit string. */
  lemma {:induction false} DigitsValueLeadingZeros(k: nat, s: string)
    requires AllDigits(s)
    ensures AllDigits(Repeat('0', k) + s)
    ensures DigitsValue(Repeat('0', k) + s) == DigitsValue(s)
    decreases |s|
  {
    var z := Repeat('0', k);
    if |s| == 0 {
      assert z + s == z;
      ZerosValue(k);
    } else {
      var s' := s[..|s| - 1];
      assert (z + s)[..|z + s| - 1] == z + s';
      DigitsValueLeadingZeros(k, s');
    }
  }

  lemma {:induction false} ZerosValue(k: nat)
    ensures DigitsValue(Repeat('0', k)) == 0
  {
    if k > 0 {
      var z := Repeat('0', k);
      assert z[..k - 1] == Repeat('0', k - 1);
      ZerosValue(k - 1);
    }
  }

  /** Python `f'{n:0{width}d}'` for a natural number. */
  function ZeroPad(n: nat, width: nat): (r: string)
    ensures AllDigits(r) && |r| >= width && DigitsValue(r) == n
  {
    var s := NatToString(n);
    DigitsValueOfNatToString(n);
    DigitsValueLeadingZeros(if |s| < width then width - |s| else 0, s);
    Repeat('0', if |s| < width then width - |s| else 0) + s
  }

  /**
   * `toUpperCase` of one character as far as the model follows it: ASCII
   * letters, and the two non-ASCII letters whose upper case is `S` or `I`.
   */
  function UpperChar(c: char): char {
    if 'a' <= c <= 'z' then (c as int - 32) as char
    else if c == '\U{17F}' then 'S'    // LATIN SMALL LETTER LONG S
    else if c == '\U{131}' then 'I'    // LATIN SMALL LETTER DOTLESS I
    else c
  }

  function ToUpper(s: string): (r: string)
    ensures |r| == |s| && forall k :: 0 <= k < |s| ==> r[k] == UpperChar(s[k])
  {
    if |s| == 0 then "" else [UpperChar(s[0])] + ToUpper(s[1..])
  }

  function LowerChar(c: char): char {
    if 'A' <= c <= 'Z' then (c as int + 32) as char else c
  }

  function ToLower(s: string): (r: string)
    ensures |r| == |s| && forall k :: 0 <= k < |s| ==> r[k] == LowerChar(s[k])
  {
    if |s| == 0 then "" else [LowerChar(s[0])] + ToLower(s[1..])
  }
}
