/** Sequence operations the source takes from Python: `range` with a step,
    slicing `s[i:i + w]`, and `sep.join(parts)`. The token chunker and the
    audio slicer both cut a sequence into windows starting at the points
    of a stepped range. */
module Seqs {

  /** `ceil(n / d)` for a non-negative `n` and a positive `d`. */
  function CeilDiv(n: nat, d: nat): nat
    requires d > 0
  {
    (n + d - 1) / d
  }

  /** Python's `list(range(lo, hi, step))` for a positive step. */
  function Range(lo: int, hi: int, step: int): (r: seq<int>)
    requires step > 0
    ensures forall k :: 0 <= k < |r| ==> lo <= r[k] < hi
    decreases hi - lo
  {
    if lo >= hi then [] else [lo] + Range(lo + step, hi, step)
  }

  /** The k-th point of a range is `lo + k * step`. */
  lemma {:induction false} RangeAt(lo: int, hi: int, step: int, k: nat)
    requires step > 0 && k < |Range(lo, hi, step)|
    ensures Range(lo, hi, step)[k] == lo + k * step
    decreases hi - lo
  {
    if k > 0 {
      RangeAt(lo + step, hi, step, k - 1);
      assert (k - 1) * step + step == k * step;
    }
  }

  /** Consecutive points of a range are one step apart. */
  lemma {:induction false} RangeNext(lo: int, hi: int, step: int, k: nat)
    requires step > 0 && k + 1 < |Range(lo, hi, step)|
    ensures Range(lo, hi, step)[k + 1] == Range(lo, hi, step)[k] + step
    decreases hi - lo
  {
    if k > 0 {
      RangeNext(lo + step, hi, step, k - 1);
    }
  }

  /** A range from 0 to n has `ceil(n / step)` points. */
  lemma {:induction false} RangeLength(lo: int, hi: int, step: int)
    requires step > 0
    ensures |Range(lo, hi, step)| == if lo >= hi then 0 else CeilDiv(hi - lo, step)
    decreases hi - lo
  {
    if lo < hi {
      RangeLength(lo + step, hi, step);
      var a := hi - lo - 1;
      DivStep(a, step);
      if lo + step < hi {
        assert CeilDiv(hi - lo - step, step) == (a - step + step) / step + 0;
        DivStep(a - step, step);
      } else {
        assert a < step;
      }
    }
  }

  /** `(a + d) / d == a / d + 1` for Dafny's (Euclidean) division. */
  lemma DivStep(a: int, d: int)
    requires a >= 0 && d > 0
    ensures (a + d) / d == a / d + 1
    ensures a < d ==> a / d == 0
  {
    var q, r := a / d, a % d;
    assert a == q * d + r && 0 <= r < d;
    assert a + d == (q + 1) * d + r;
    DivUnique(a + d, d, q + 1, r);
    if a < d {
      DivUnique(a, d, 0, a);
    }
  }

  /** Euclidean division is determined by quotient and remainder. */
  lemma DivUnique(n: int, d: int, q: int, r: int)
    requires d > 0 && n == q * d + r && 0 <= r < d
    ensures n / d == q
  {
    var q', r' := n / d, n % d;
    assert n == q' * d + r' && 0 <= r' < d;
    assert q * d - q' * d == r' - r;
    assert (q - q') * d == q * d - q' * d;
    if q > q' {
      MulAtLeast(q - q', d);
    } else if q < q' {
      MulAtLeast(q' - q, d);
    }
  }

  /** A positive multiple of d is at least d. */
  lemma {:induction false} MulAtLeast(x: int, d: int)
    requires x >= 1 && d > 0
    ensures x * d >= d
  {
    if x > 1 {
      MulAtLeast(x - 1, d);
      assert x * d == (x - 1) * d + d;
    }
  }

  /** Every position from lo up to hi lies within `step` of some range point. */
  lemma {:induction false} RangeCovers(lo: int, hi: int, step: int, j: int) returns (k: nat)
    requires step > 0 && lo <= j < hi
    ensures k < |Range(lo, hi, step)|
    ensures Range(lo, hi, step)[k] <= j < Range(lo, hi, step)[k] + step
    decreases hi - lo
  {
    if j < lo + step {
      k := 0;
    } else {
      var k' := RangeCovers(lo + step, hi, step, j);
      k := k' + 1;
    }
  }

  /** The last point of a non-empty range is within `step` of hi. */
  lemma {:induction false} RangeLast(lo: int, hi: int, step: int)
    requires step > 0 && lo < hi
    ensures |Range(lo, hi, step)| > 0
    ensures hi <= Range(lo, hi, step)[|Range(lo, hi, step)| - 1] + step
    decreases hi - lo
  {
    if lo + step < hi {
      RangeLast(lo + step, hi, step);
    }
  }

  /** Python's slice `s[start:start + width]` for an in-bounds start. */
  function Window<T>(s: seq<T>, start: nat, width: nat): (w: seq<T>)
    requires start <= |s|
  {
    s[start .. if start + width < |s| then start + width else |s|]
  }

  /** A full window and the window one step later share `width - step` elements. */
  lemma WindowsShare<T>(s: seq<T>, a: nat, step: nat, width: nat)
    requires 0 < step <= width && a + width <= |s|
    ensures |Window(s, a + step, width)| >= width - step
    ensures Window(s, a, width)[step..] == Window(s, a + step, width)[..width - step]
  {
    var w := Window(s, a, width);
    var v := Window(s, a + step, width);
    assert w == s[a..a + width];
    assert w[step..] == s[a + step..a + width];
    assert v[..width - step] == s[a + step..a + width];
  }

  /** An index less than `width` past the start lies inside the window. */
  lemma WindowWithin<T>(s: seq<T>, a: nat, width: nat, j: nat)
    requires a <= j < |s| && j < a + width
    ensures j < a + |Window(s, a, width)|
    ensures Window(s, a, width)[j - a] == s[j]
  {
  }

  /** The starts of a window list: every start is an index into s. */
  ghost predicate InBounds<T>(s: seq<T>, starts: seq<int>)
  {
    forall k :: 0 <= k < |starts| ==> 0 <= starts[k] <= |s|
  }

  /** `[s[i:i + width] for i in starts]`. */
  function Windows<T>(s: seq<T>, starts: seq<int>, width: nat): (ws: seq<seq<T>>)
    requires InBounds(s, starts)
    ensures |ws| == |starts|
    ensures forall k :: 0 <= k < |ws| ==> ws[k] == Window(s, starts[k], width)
  {
    if starts == [] then [] else [Window(s, starts[0], width)] + Windows(s, starts[1..], width)
  }

  /** The windows of s at the points of `range(lo, len(s), step)`. */
  function Slices<T>(s: seq<T>, lo: nat, step: nat, width: nat): (ws: seq<seq<T>>)
    requires step > 0
  {
    Windows(s, Range(lo, |s|, step), width)
  }

  /** The first slice, then the slices one step further on. */
  lemma SlicesUnfold<T>(s: seq<T>, lo: nat, step: nat, width: nat)
    requires step > 0 && lo < |s|
    ensures Slices(s, lo, step, width) == [Window(s, lo, width)] + Slices(s, lo + step, step, width)
  {
    var rest := Range(lo + step, |s|, step);
    assert Range(lo, |s|, step) == [lo] + rest;
    assert ([lo] + rest)[1..] == rest;
  }

  /** No slices start at or past the end. */
  lemma SlicesPastEnd<T>(s: seq<T>, lo: nat, step: nat, width: nat)
    requires step > 0 && lo >= |s|
    ensures Slices(s, lo, step, width) == []
  {
  }

  /** Concatenation of a list of sequences. */
  function Flatten<T>(ss: seq<seq<T>>): seq<T>
  {
    if ss == [] then [] else ss[0] + Flatten(ss[1..])
  }

  /** Slices whose width equals their step tile s exactly. */
  lemma {:induction false} SlicesTile<T>(s: seq<T>, lo: nat, step: nat)
    requires step > 0 && lo <= |s|
    ensures Flatten(Slices(s, lo, step, step)) == s[lo..]
    decreases |s| - lo
  {
    var ws := Slices(s, lo, step, step);
    if lo < |s| {
      var next := if lo + step < |s| then lo + step else |s|;
      assert Range(lo, |s|, step) == [lo] + Range(lo + step, |s|, step);
      if lo + step < |s| {
        SlicesTile(s, lo + step, step);
        assert ws[1..] == Slices(s, lo + step, step, step);
      } else {
        assert Range(lo + step, |s|, step) == [];
        assert ws[1..] == [];
      }
      assert ws[0] == s[lo..next];
      assert Flatten(ws[1..]) == s[next..];
      assert s[lo..] == s[lo..next] + s[next..];
    }
  }

  /** Python's `sep.join(parts)`. */
  function Join<T>(sep: seq<T>, parts: seq<seq<T>>): seq<T>
  {
    if |parts| == 0 then []
    else if |parts| == 1 then parts[0]
    else parts[0] + sep + Join(sep, parts[1..])
  }

  /** Joining appends the separator and the next part, in order. */
  lemma {:induction false} JoinSnoc<T>(sep: seq<T>, parts: seq<seq<T>>, last: seq<T>)
    requires |parts| > 0
    ensures Join(sep, parts + [last]) == Join(sep, parts) + sep + last
  {
    if |parts| == 1 {
      assert (parts + [last])[1..] == [last];
    } else {
      JoinSnoc(sep, parts[1..], last);
      assert (parts + [last])[1..] == parts[1..] + [last];
    }
  }
}
