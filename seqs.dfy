/** Positions of the elements of a sequence that satisfy a test. */
module Seqs {
  import opened Wrappers

  /** `f` applied to each element in order; the first error stops the walk. */
  function MapResult<T, U, E>(xs: seq<T>, f: T --> Result<U, E>): Result<seq<U>, E>
    requires forall k :: 0 <= k < |xs| ==> f.requires(xs[k])
  {
    if |xs| == 0 then Ok([])
    else
      match f(xs[0])
      case Err(e) => Err(e)
      case Ok(y) =>
        match MapResult(xs[1..], f)
        case Err(e) => Err(e)
        case Ok(ys) => Ok([y] + ys)
  }

  /** The walk fails iff `f` fails on some element. */
  lemma {:induction false} MapResultFails<T, U, E>(xs: seq<T>, f: T --> Result<U, E>)
    requires forall k :: 0 <= k < |xs| ==> f.requires(xs[k])
    ensures MapResult(xs, f).Err? <==> exists k :: 0 <= k < |xs| && f(xs[k]).Err?
  {
    if |xs| > 0 {
      MapResultFails(xs[1..], f);
      if f(xs[0]).Ok? && MapResult(xs[1..], f).Err? {
        var k :| 0 <= k < |xs[1..]| && f(xs[1..][k]).Err?;
        assert xs[1..][k] == xs[k + 1];
      }
      if MapResult(xs, f).Ok? {
        forall k | 0 <= k < |xs|
          ensures f(xs[k]).Ok?
        {
          if k > 0 {
            assert xs[k] == xs[1..][k - 1];
          }
        }
      }
    }
  }

  /** A successful walk holds `f` of each element, in order. */
  lemma {:induction false} MapResultValues<T, U, E>(xs: seq<T>, f: T --> Result<U, E>)
    requires forall k :: 0 <= k < |xs| ==> f.requires(xs[k])
    requires MapResult(xs, f).Ok?
    ensures |MapResult(xs, f).value| == |xs|
    ensures forall k :: 0 <= k < |xs| ==> f(xs[k]) == Ok(MapResult(xs, f).value[k])
  {
    if |xs| > 0 {
      MapResultValues(xs[1..], f);
      forall k | 1 <= k < |xs|
        ensures f(xs[k]) == Ok(MapResult(xs, f).value[k])
      {
        assert xs[k] == xs[1..][k - 1];
      }
    }
  }

  /** Where `slice` puts a bound `i` in a sequence of length `n`: negative bounds count from the end. */
  function SliceBound(n: nat, i: int): (r: nat)
    ensures r <= n
    ensures 0 <= i ==> r == (if i < n then i else n)
    ensures i < 0 ==> r == (if n + i < 0 then 0 else n + i)
  {
    if i < 0 then (if n + i < 0 then 0 else n + i) else (if i < n then i else n)
  }

  /** `Array.prototype.slice(start, end)`: negative bounds count from the end. */
  function JsSlice<T>(xs: seq<T>, start: int, end: int): (r: seq<T>)
    ensures |r| <= |xs|
    ensures SliceBound(|xs|, start) < SliceBound(|xs|, end) ==> r == xs[SliceBound(|xs|, start)..SliceBound(|xs|, end)]
    ensures SliceBound(|xs|, start) >= SliceBound(|xs|, end) ==> r == []
  {
    var from := SliceBound(|xs|, start);
    var to := SliceBound(|xs|, end);
    if from < to then xs[from..to] else []
  }

  /** For non-negative bounds `slice` is the window `[start, end)` cut to the sequence. */
  lemma JsSliceWindow<T>(xs: seq<T>, start: int, end: int)
    requires 0 <= start <= end
    ensures start <= |xs| ==> JsSlice(xs, start, end) == xs[start..if end < |xs| then end else |xs|]
    ensures start >= |xs| ==> JsSlice(xs, start, end) == []
  {
  }

  /** Taking out the element at `i` leaves one fewer and removes exactly that element from the multiset. */
  lemma RemoveAt<T>(xs: seq<T>, i: nat)
    requires i < |xs|
    ensures |xs[..i] + xs[i + 1..]| == |xs| - 1
    ensures multiset(xs[..i] + xs[i + 1..]) + multiset{xs[i]} == multiset(xs)
  {
    assert xs == xs[..i] + [xs[i]] + xs[i + 1..];
  }

  function Where<T>(xs: seq<T>, p: T -> bool): (r: seq<nat>)
    ensures forall k :: 0 <= k < |r| ==> r[k] < |xs| && p(xs[r[k]])
    ensures forall k, l :: 0 <= k < l < |r| ==> r[k] < r[l]
    ensures forall j :: 0 <= j < |xs| && p(xs[j]) ==> j in r
  {
    if |xs| == 0 then []
    else
      var front := xs[..|xs| - 1];
      var r := Where(front, p);
      assert forall j :: 0 <= j < |front| ==> front[j] == xs[j];
      if p(xs[|xs| - 1]) then r + [|xs| - 1] else r
  }

  /** Extending the scanned prefix by one element extends Where by that position, if it matches. */
  lemma WhereStep<T>(xs: seq<T>, p: T -> bool, j: nat)
    requires j < |xs|
    ensures Where(xs[..j + 1], p) == Where(xs[..j], p) + (if p(xs[j]) then [j] else [])
  {
    assert xs[..j + 1][..j] == xs[..j];
  }

  /** Counting the elements that satisfy `p`. */
  function Count<T>(xs: seq<T>, p: T -> bool): (n: nat)
    ensures n <= |xs|
  {
    if |xs| == 0 then 0 else Count(xs[..|xs| - 1], p) + (if p(xs[|xs| - 1]) then 1 else 0)
  }

  /** The elements that satisfy `p`, in order (`filter`). */
  function Filter<T>(xs: seq<T>, p: T -> bool): seq<T> {
    if |xs| == 0 then []
    else Filter(xs[..|xs| - 1], p) + (if p(xs[|xs| - 1]) then [xs[|xs| - 1]] else [])
  }

  /** Filter keeps Count elements, all satisfying `p`, each taken from `xs`. */
  lemma {:induction false} FilterProperties<T>(xs: seq<T>, p: T -> bool)
    ensures |Filter(xs, p)| == Count(xs, p)
    ensures forall k :: 0 <= k < |Filter(xs, p)| ==> p(Filter(xs, p)[k])
    ensures multiset(Filter(xs, p)) <= multiset(xs)
  {
    if |xs| > 0 {
      var front := xs[..|xs| - 1];
      FilterProperties(front, p);
      assert xs == front + [xs[|xs| - 1]];
    }
  }

  /** An element is in the filtered sequence exactly when it is in `xs` and satisfies `p`. */
  lemma {:induction false} FilterMembership<T>(xs: seq<T>, p: T -> bool, x: T)
    ensures x in Filter(xs, p) <==> x in xs && p(x)
  {
    if |xs| > 0 {
      var front := xs[..|xs| - 1];
      FilterMembership(front, p, x);
      assert xs == front + [xs[|xs| - 1]];
    }
  }

  lemma {:induction false} FilterAppend<T>(a: seq<T>, b: seq<T>, p: T -> bool)
    ensures Filter(a + b, p) == Filter(a, p) + Filter(b, p)
    decreases |b|
  {
    if |b| > 0 {
      var b' := b[..|b| - 1];
      assert (a + b)[..|a + b| - 1] == a + b';
      FilterAppend(a, b', p);
    } else {
      assert a + b == a;
    }
  }

  lemma {:induction false} CountAppend<T>(a: seq<T>, b: seq<T>, p: T -> bool)
    ensures Count(a + b, p) == Count(a, p) + Count(b, p)
    decreases |b|
  {
    if |b| > 0 {
      var b' := b[..|b| - 1];
      assert (a + b)[..|a + b| - 1] == a + b';
      CountAppend(a, b', p);
    } else {
      assert a + b == a;
    }
  }

  /** The filtered elements are the elements at the positions Where finds. */
  lemma {:induction false} FilterAtWhere<T>(xs: seq<T>, p: T -> bool)
    ensures |Filter(xs, p)| == |Where(xs, p)|
    ensures forall k :: 0 <= k < |Where(xs, p)| ==> Filter(xs, p)[k] == xs[Where(xs, p)[k]]
  {
    if |xs| > 0 {
      var front := xs[..|xs| - 1];
      var last := xs[|xs| - 1];
      FilterAtWhere(front, p);
      var r := Where(front, p);
      var w := Where(xs, p);
      var f := Filter(xs, p);
      assert w == r + (if p(last) then [|xs| - 1] else []);
      assert f == Filter(front, p) + (if p(last) then [last] else []);
      forall k | 0 <= k < |w| ensures f[k] == xs[w[k]] {
        if k < |r| {
          assert w[k] == r[k] && f[k] == Filter(front, p)[k];
          assert front[r[k]] == xs[r[k]];
        }
      }
    }
  }

  /**
   * The positions a scan from `i` stops at when an element satisfying `tag`
   * takes the element after it along and skips it; a `tag` element without
   * a successor ends the scan.
   */
  function PairedPositions<T>(xs: seq<T>, i: nat, tag: T -> bool): seq<nat>
    decreases |xs| - i
  {
    if i >= |xs| then []
    else if tag(xs[i]) then
      if i + 1 < |xs| then [i] + PairedPositions(xs, i + 2, tag) else []
    else PairedPositions(xs, i + 1, tag)
  }

  /** Every paired position is a `tag` element, at or after `i`, with a successor. */
  lemma {:induction false} PairedPositionsAreTags<T>(xs: seq<T>, i: nat, tag: T -> bool)
    ensures forall k :: 0 <= k < |PairedPositions(xs, i, tag)| ==>
      && i <= PairedPositions(xs, i, tag)[k]
      && PairedPositions(xs, i, tag)[k] + 1 < |xs|
      && tag(xs[PairedPositions(xs, i, tag)[k]])
    decreases |xs| - i
  {
    if i < |xs| && !tag(xs[i]) {
      PairedPositionsAreTags(xs, i + 1, tag);
      assert PairedPositions(xs, i, tag) == PairedPositions(xs, i + 1, tag);
    } else if i + 1 < |xs| && tag(xs[i]) {
      PairedPositionsAreTags(xs, i + 2, tag);
      assert PairedPositions(xs, i, tag) == [i] + PairedPositions(xs, i + 2, tag);
    }
  }

  /** The element taken along is never itself a paired position. */
  lemma {:induction false} PairedPositionsApart<T>(xs: seq<T>, i: nat, tag: T -> bool)
    ensures forall k :: 0 <= k < |PairedPositions(xs, i, tag)| - 1 ==>
      PairedPositions(xs, i, tag)[k] + 2 <= PairedPositions(xs, i, tag)[k + 1]
    decreases |xs| - i
  {
    if i < |xs| && !tag(xs[i]) {
      PairedPositionsApart(xs, i + 1, tag);
      assert PairedPositions(xs, i, tag) == PairedPositions(xs, i + 1, tag);
    } else if i + 1 < |xs| && tag(xs[i]) {
      PairedPositionsApart(xs, i + 2, tag);
      PairedPositionsAreTags(xs, i + 2, tag);
      assert PairedPositions(xs, i, tag) == [i] + PairedPositions(xs, i + 2, tag);
    }
  }

  /**
   * A `tag` element that is not a paired position was taken along by the
   * one before it, or is the last element.
   */
  lemma {:induction false} PairedPositionsCover<T>(xs: seq<T>, i: nat, tag: T -> bool)
    ensures forall j :: i <= j < |xs| && tag(xs[j]) ==>
      j in PairedPositions(xs, i, tag) || (j > 0 && j - 1 in PairedPositions(xs, i, tag)) || j == |xs| - 1
    decreases |xs| - i
  {
    if i < |xs| && !tag(xs[i]) {
      PairedPositionsCover(xs, i + 1, tag);
      assert PairedPositions(xs, i, tag) == PairedPositions(xs, i + 1, tag);
    } else if i + 1 < |xs| && tag(xs[i]) {
      PairedPositionsCover(xs, i + 2, tag);
      assert PairedPositions(xs, i, tag) == [i] + PairedPositions(xs, i + 2, tag);
    }
  }
  /**
   * The last element satisfying `mark` that no later `reset` element
   * cancels: the "current" value a forward scan keeps.
   */
  function LastMarked<T>(xs: seq<T>, mark: T -> bool, reset: T -> bool): Option<T> {
    if |xs| == 0 then None
    else if mark(xs[|xs| - 1]) then Some(xs[|xs| - 1])
    else if reset(xs[|xs| - 1]) then None
    else LastMarked(xs[..|xs| - 1], mark, reset)
  }

  /**
   * LastMarked finds the element at `j` iff `j` is marked and every later
   * element is neither marked nor a reset.
   */
  lemma {:induction false} LastMarkedAt<T>(xs: seq<T>, mark: T -> bool, reset: T -> bool, j: nat)
    requires j < |xs| && mark(xs[j])
    requires forall l :: j < l < |xs| ==> !mark(xs[l]) && !reset(xs[l])
    ensures LastMarked(xs, mark, reset) == Some(xs[j])
    decreases |xs|
  {
    if j < |xs| - 1 {
      var front := xs[..|xs| - 1];
      assert forall l :: 0 <= l < |front| ==> front[l] == xs[l];
      LastMarkedAt(front, mark, reset, j);
    }
  }

  /** Nothing is current iff every mark is followed by a reset. */
  lemma {:induction false} LastMarkedNone<T>(xs: seq<T>, mark: T -> bool, reset: T -> bool)
    ensures LastMarked(xs, mark, reset).None? <==>
      forall j :: 0 <= j < |xs| && mark(xs[j]) ==> exists l :: j < l < |xs| && reset(xs[l]) && !mark(xs[l])
    decreases |xs|
  {
    if |xs| > 0 {
      var front := xs[..|xs| - 1];
      assert forall l :: 0 <= l < |front| ==> front[l] == xs[l];
      LastMarkedNone(front, mark, reset);
      var last := |xs| - 1;
      if !mark(xs[last]) && reset(xs[last]) {
        forall j | 0 <= j < |xs| && mark(xs[j])
          ensures exists l :: j < l < |xs| && reset(xs[l]) && !mark(xs[l])
        {
          assert j < last;
        }
      } else if !mark(xs[last]) {
        forall j | 0 <= j < |front| && mark(front[j]) && (exists l :: j < l < |xs| && reset(xs[l]) && !mark(xs[l]))
          ensures exists l :: j < l < |front| && reset(front[l]) && !mark(front[l])
        {
          var l :| j < l < |xs| && reset(xs[l]) && !mark(xs[l]);
          assert l < last;
        }
      }
    }
  }
}
